/**
 * The browser preview (preview.js). Its `groupByType` keeps the raw records
 * under the exact `w.type` (no defaults, no `maxLevel`), its
 * `buildLevelSummaries` keeps the first record of each level without sorting,
 * `render` sorts the legend by its own `priority` (ascending, green last) and
 * draws one timeline block per record with `buildTimelineBlocks`.
 *
 * Object keys are `String(value)`, so a missing `type` or `level` is filed
 * under the key "undefined". Date formatting is a pair of parameters.
 */
module Preview {
  import opened Records
  import opened Text
  import opened Collect
  import opened Sorting
  import Levels = AvisosLevels

  /** The levels the preview ranks, in ascending order. */
  const RankedLevels: seq<string> := ["yellow", "orange", "red"]

  /** `priority(l)`: 1, 2, 3 for yellow, orange, red, and 9 for anything else, green included. */
  function Priority(l: Option<string>): (r: nat)
    ensures 1 <= r <= 9
    ensures r < 9 <==> l.Some? && l.value in RankedLevels
    ensures r < 9 ==> r <= |RankedLevels| && RankedLevels[r - 1] == l.value
  {
    if l == Some("yellow") then 1
    else if l == Some("orange") then 2
    else if l == Some("red") then 3
    else 9
  }

  /**
   * The two scripts rank the shared levels alike, one step apart, but green is
   * the least severe level in the widget and ranks after red in the preview.
   */
  lemma PrioritiesCompared()
    ensures forall l :: l in RankedLevels ==> Priority(Some(l)) + 1 == Levels.Priority(l)
    ensures Levels.Priority("green") < Levels.Priority("yellow")
    ensures Priority(Some("green")) > Priority(Some("red"))
  {
  }

  /** `String(w.type)`: the key `m[w.type]`. */
  function TypeKey(w: Warning): string {
    JsString(w.kind)
  }

  /** `String(w.level)`: the key `map[w.level]`. */
  function LevelKey(w: Warning): string {
    JsString(w.level)
  }

  /** One entry of the map built by `groupByType`: `{ type, items }`. */
  datatype Group = Group(kind: Option<string>, items: seq<Warning>)

  function GroupKey(g: Group): string {
    JsString(g.kind)
  }

  /** The group of key `k`: the `type` of its first record, and all its records in input order. */
  function GroupOf(ws: seq<Warning>, k: string): Group
    requires k in Keys(ws, TypeKey)
  {
    Group(ws[FirstIndex(Keys(ws, TypeKey), k)].kind, Bucket(ws, TypeKey, k))
  }

  /** `groupByType(ws)` as a value: one group per distinct key, in order of first encounter. */
  function Grouped(ws: seq<Warning>): seq<Group> {
    GroupsFor(ws, Distinct(Keys(ws, TypeKey)))
  }

  function GroupsFor(ws: seq<Warning>, ks: seq<string>): seq<Group>
    requires forall k :: k in ks ==> k in Keys(ws, TypeKey)
  {
    seq(|ks|, j requires 0 <= j < |ks| => GroupOf(ws, ks[j]))
  }

  lemma GroupOfAppend(ws: seq<Warning>, w: Warning, k: string)
    requires k in Keys(ws, TypeKey)
    ensures k in Keys(ws + [w], TypeKey)
    ensures GroupOf(ws + [w], k) ==
      var g := GroupOf(ws, k);
      if TypeKey(w) == k then g.(items := g.items + [w]) else g
  {
    KeysAppend(ws, w, TypeKey);
    FirstIndexAppend(Keys(ws, TypeKey), TypeKey(w), k);
    BucketAppend(ws, w, TypeKey, k);
    var i := FirstIndex(Keys(ws, TypeKey), k);
    assert (ws + [w])[i] == ws[i];
  }

  /** The groups carry the distinct keys, in order of first encounter. */
  lemma GroupedKeys(ws: seq<Warning>)
    ensures Keys(Grouped(ws), GroupKey) == Distinct(Keys(ws, TypeKey))
  {
    var ks := Distinct(Keys(ws, TypeKey));
    var gs := Grouped(ws);
    assert |gs| == |ks|;
    forall j | 0 <= j < |ks| ensures Keys(gs, GroupKey)[j] == ks[j] {
      assert Keys(gs, GroupKey)[j] == GroupKey(gs[j]);
      assert gs[j] == GroupOf(ws, ks[j]);
    }
  }

  /** The groups of the keys seen before stay in place; only the one of `w`'s key gains `w`. */
  lemma GroupedAppendAt(ws: seq<Warning>, w: Warning, j: nat)
    requires j < |Grouped(ws)|
    ensures j < |Grouped(ws + [w])|
    ensures Grouped(ws + [w])[j] ==
      var g := Grouped(ws)[j];
      if Distinct(Keys(ws, TypeKey))[j] == TypeKey(w) then g.(items := g.items + [w]) else g
  {
    var ds := Distinct(Keys(ws, TypeKey));
    KeysAppend(ws, w, TypeKey);
    DistinctAppend(Keys(ws, TypeKey), TypeKey(w));
    var ds' := Distinct(Keys(ws + [w], TypeKey));
    assert ds'[j] == ds[j];
    assert Grouped(ws)[j] == GroupOf(ws, ds[j]);
    assert Grouped(ws + [w])[j] == GroupOf(ws + [w], ds'[j]);
    GroupOfAppend(ws, w, ds[j]);
  }

  /** The number of groups grows by one exactly when the key of `w` is new. */
  lemma GroupedAppendLength(ws: seq<Warning>, w: Warning)
    ensures |Grouped(ws + [w])| ==
      |Grouped(ws)| + (if TypeKey(w) in Distinct(Keys(ws, TypeKey)) then 0 else 1)
  {
    KeysAppend(ws, w, TypeKey);
    DistinctAppend(Keys(ws, TypeKey), TypeKey(w));
  }

  lemma GroupedAppendSeen(ws: seq<Warning>, w: Warning, j: nat)
    requires j < |Distinct(Keys(ws, TypeKey))| && Distinct(Keys(ws, TypeKey))[j] == TypeKey(w)
    ensures Grouped(ws + [w]) == Grouped(ws)[j := Grouped(ws)[j].(items := Grouped(ws)[j].items + [w])]
  {
    var ds := Distinct(Keys(ws, TypeKey));
    var gs, gs' := Grouped(ws), Grouped(ws + [w]);
    GroupedAppendLength(ws, w);
    forall j' | 0 <= j' < |gs| && j' != j ensures gs'[j'] == gs[j'] {
      GroupedAppendAt(ws, w, j');
      assert ds[j'] != ds[j];
    }
    GroupedAppendAt(ws, w, j);
    UpdatedAt(gs, gs', j, gs[j].(items := gs[j].items + [w]));
  }

  /** A record of a new key opens a group with its own `type` and just that record, after the others. */
  lemma GroupedAppendOpened(ws: seq<Warning>, w: Warning)
    requires TypeKey(w) !in Distinct(Keys(ws, TypeKey))
    ensures |Grouped(ws + [w])| == |Grouped(ws)| + 1
    ensures Grouped(ws + [w])[|Grouped(ws)|] == Group(w.kind, [w])
  {
    var ds, k := Distinct(Keys(ws, TypeKey)), TypeKey(w);
    KeysAppend(ws, w, TypeKey);
    DistinctAppend(Keys(ws, TypeKey), k);
    assert Distinct(Keys(ws + [w], TypeKey))[|ds|] == k;
    GroupOfNewKey(ws, w);
    assert Grouped(ws + [w])[|ds|] == GroupOf(ws + [w], k);
  }

  lemma GroupOfNewKey(ws: seq<Warning>, w: Warning)
    requires TypeKey(w) !in Keys(ws, TypeKey)
    ensures TypeKey(w) in Keys(ws + [w], TypeKey)
    ensures GroupOf(ws + [w], TypeKey(w)) == Group(w.kind, [w])
  {
    var k := TypeKey(w);
    KeysAppend(ws, w, TypeKey);
    BucketAppend(ws, w, TypeKey, k);
    BucketOfAbsentKey(ws, TypeKey, k);
    NewKeyFirstAtEnd(Keys(ws, TypeKey), k);
  }

  lemma GroupedAppendNew(ws: seq<Warning>, w: Warning)
    requires TypeKey(w) !in Distinct(Keys(ws, TypeKey))
    ensures Grouped(ws + [w]) == Grouped(ws) + [Group(w.kind, [w])]
  {
    var gs, gs' := Grouped(ws), Grouped(ws + [w]);
    GroupedAppendOpened(ws, w);
    forall j' | 0 <= j' < |gs| ensures gs'[j'] == gs[j'] {
      GroupedAppendAt(ws, w, j');
    }
    ExtendedBy(gs, gs', Group(w.kind, [w]));
  }

  /** How the map changes when one more record is processed, found with `m[w.type]`. */
  lemma GroupedAppend(ws: seq<Warning>, w: Warning)
    ensures
      var gs := Grouped(ws);
      var j := IndexOfKey(gs, GroupKey, TypeKey(w));
      Grouped(ws + [w]) ==
        if j < |gs| then gs[j := gs[j].(items := gs[j].items + [w])]
        else gs + [Group(w.kind, [w])]
  {
    var gs := Grouped(ws);
    GroupedKeys(ws);
    IndexOfKeyFound(gs, GroupKey, TypeKey(w));
    if TypeKey(w) in Distinct(Keys(ws, TypeKey)) {
      GroupedAppendSeen(ws, w, IndexOfKey(gs, GroupKey, TypeKey(w)));
    } else {
      GroupedAppendNew(ws, w);
    }
  }

  /** The body of `ws.forEach` in `groupByType`: file one record under `m[w.type]`. */
  method AddRecord(groups: seq<Group>, w: Warning) returns (groups': seq<Group>)
    ensures var j := IndexOfKey(groups, GroupKey, TypeKey(w));
      groups' == if j < |groups| then groups[j := groups[j].(items := groups[j].items + [w])]
        else groups + [Group(w.kind, [w])]
  {
    var j := IndexOfKey(groups, GroupKey, JsString(w.kind));
    groups' := groups;
    if j == |groups| {
      groups' := groups' + [Group(w.kind, [])];
    }
    var g := groups'[j];
    assert g.items + [w] == if j < |groups| then groups[j].items + [w] else [w];
    groups' := groups'[j := g.(items := g.items + [w])];
  }

  /** `groupByType(ws)`. */
  method GroupByType(ws: seq<Warning>) returns (groups: seq<Group>)
    ensures groups == Grouped(ws)
  {
    groups := [];
    for i := 0 to |ws|
      invariant groups == Grouped(ws[..i])
    {
      assert ws[..i + 1] == ws[..i] + [ws[i]];
      GroupedAppend(ws[..i], ws[i]);
      groups := AddRecord(groups, ws[i]);
    }
    assert ws[..|ws|] == ws;
  }

  /** Total number of records over `groups`. */
  function ItemCount(groups: seq<Group>): nat {
    if groups == [] then 0
    else ItemCount(groups[..|groups| - 1]) + |groups[|groups| - 1].items|
  }

  lemma {:induction false} ItemCountIsSizeSum(ws: seq<Warning>, ks: seq<string>)
    requires forall k :: k in ks ==> k in Keys(ws, TypeKey)
    ensures ItemCount(GroupsFor(ws, ks)) == SizeSum(ws, TypeKey, ks)
  {
    if ks != [] {
      var q := ks[..|ks| - 1];
      ItemCountIsSizeSum(ws, q);
      assert GroupsFor(ws, ks)[..|ks| - 1] == GroupsFor(ws, q);
    }
  }

  /** The groups partition the input: their sizes add up to the number of records. */
  lemma GroupedPartition(ws: seq<Warning>)
    ensures ItemCount(Grouped(ws)) == |ws|
  {
    var ds := Distinct(Keys(ws, TypeKey));
    ItemCountIsSizeSum(ws, ds);
    BucketsCover(ws, TypeKey);
  }

  /**
   * Every record lands, unchanged, in the group that the lookup `m[w.type]`
   * finds for its exact key `String(w.type)`; that group's items are the
   * records of that key in input order, and its `type` is that of the first
   * of them.
   */
  lemma RecordLandsInItsGroup(ws: seq<Warning>, i: int)
    requires 0 <= i < |ws|
    ensures
      var gs := Grouped(ws);
      var k := TypeKey(ws[i]);
      var j := IndexOfKey(gs, GroupKey, k);
      && j < |gs|
      && gs[j].items == Bucket(ws, TypeKey, k)
      && ws[i] in gs[j].items
      && (forall x :: x in gs[j].items ==> x in ws && TypeKey(x) == k)
      && IndexOfKey(ws, TypeKey, k) <= i
      && gs[j].kind == ws[IndexOfKey(ws, TypeKey, k)].kind
  {
    var ks := Keys(ws, TypeKey);
    var k := TypeKey(ws[i]);
    var gs := Grouped(ws);
    assert ks[i] == k;
    GroupedKeys(ws);
    IndexOfKeyFound(gs, GroupKey, k);
    IndexOfKeyFound(ws, TypeKey, k);
    var j := IndexOfKey(gs, GroupKey, k);
    assert gs[j] == GroupOf(ws, Distinct(ks)[j]);
  }

  /** No two groups share a key, and groups come in order of each key's first record. */
  lemma GroupsInFirstEncounterOrder(ws: seq<Warning>)
    ensures forall i, j :: 0 <= i < j < |Grouped(ws)| ==>
      GroupKey(Grouped(ws)[i]) != GroupKey(Grouped(ws)[j])
    ensures forall i, j :: 0 <= i < j < |Grouped(ws)| ==>
      FirstIndex(Keys(ws, TypeKey), GroupKey(Grouped(ws)[i])) < FirstIndex(Keys(ws, TypeKey), GroupKey(Grouped(ws)[j]))
  {
    GroupedKeys(ws);
    DistinctInFirstEncounterOrder(Keys(ws, TypeKey));
  }

  /** `buildLevelSummaries(items)`: the first record of each level, by first encounter. */
  method BuildLevelSummaries(items: seq<Warning>) returns (summaries: seq<Warning>)
    ensures summaries == FirstPerKey(items, LevelKey)
  {
    summaries := [];
    for i := 0 to |items|
      invariant summaries == FirstPerKey(items[..i], LevelKey)
    {
      var w := items[i];
      assert items[..i + 1] == items[..i] + [w];
      FirstPerKeyStep(items[..i], w, LevelKey);
      if IndexOfKey(summaries, LevelKey, JsString(w.level)) == |summaries| {
        summaries := summaries + [w];
      }
    }
    assert items[..|items|] == items;
  }

  /**
   * One summary per distinct level, in order of first encounter, each the
   * first record of its level.
   */
  lemma LevelSummariesSpec(items: seq<Warning>)
    ensures var r := FirstPerKey(items, LevelKey);
      && (forall k :: k in Keys(r, LevelKey) <==> k in Keys(items, LevelKey))
      && NoDuplicates(Keys(r, LevelKey))
      && (forall i, j :: 0 <= i < j < |r| ==>
            FirstIndex(Keys(items, LevelKey), LevelKey(r[i])) < FirstIndex(Keys(items, LevelKey), LevelKey(r[j])))
      && (forall j :: 0 <= j < |r| ==> IsFirstOccurrence(items, LevelKey, r[j]))
  {
    FirstPerKeySpec(items, LevelKey);
    DistinctInFirstEncounterOrder(Keys(items, LevelKey));
  }

  /** The legend sort of `render`, `cmp(a, b) = priority(a.level) - priority(b.level)`. */
  function LegendBefore(a: Warning, b: Warning): bool {
    Priority(a.level) - Priority(b.level) <= 0
  }

  lemma LegendBeforeTotalPreorder()
    ensures TotalPreorder(LegendBefore)
  {
  }

  /** The legend of a card: the level summaries sorted by ascending priority. */
  function Legend(items: seq<Warning>): seq<Warning> {
    SortBy(FirstPerKey(items, LevelKey), LegendBefore)
  }

  /**
   * The legend lists the summaries yellow, orange, red, then every other
   * level (green included), those in order of first encounter.
   */
  lemma LegendOrder(items: seq<Warning>)
    ensures var r, s := Legend(items), FirstPerKey(items, LevelKey);
      && multiset(r) == multiset(s)
      && (forall i, j :: 0 <= i < j < |r| ==> Priority(r[i].level) <= Priority(r[j].level))
      && (forall t :: Ties(r, LegendBefore, t) == Ties(s, LegendBefore, t))
  {
    var s := FirstPerKey(items, LevelKey);
    LegendBeforeTotalPreorder();
    SortBySorted(s, LegendBefore);
    forall t ensures Ties(Legend(items), LegendBefore, t) == Ties(s, LegendBefore, t) {
      SortByStable(s, LegendBefore, t);
    }
  }

  /** A block of the timeline: CSS level, start label, and the end label or `null`. */
  datatype Block = Block(level: Option<string>, startLabel: string, endLabel: Option<string>)

  /** `String(w.start)`. */
  function StartKey(w: Warning): string {
    JsString(w.start)
  }

  /** The timeline sort, `String(a.start).localeCompare(String(b.start))`. */
  function StartBefore(a: Warning, b: Warning): bool {
    StrLe(StartKey(a), StartKey(b))
  }

  lemma StartBeforeTotalPreorder()
    ensures TotalPreorder(StartBefore)
  {
    forall a: Warning, b: Warning ensures StartBefore(a, b) || StartBefore(b, a) {
      StrLeTotal(StartKey(a), StartKey(b));
    }
    forall a: Warning, b: Warning, c: Warning | StartBefore(a, b) && StartBefore(b, c)
      ensures StartBefore(a, c)
    {
      StrLeTransitive(StartKey(a), StartKey(b), StartKey(c));
    }
  }

  /** Block `i` of `sorted`: the end label is hidden when the next block starts where this one ends. */
  function BlockAt(sorted: seq<Warning>, i: nat, fmtStart: Option<string> -> string, fmtTime: Option<string> -> string): Block
    requires i < |sorted|
  {
    var cur := sorted[i];
    var showEnd := i + 1 == |sorted| || cur.end != sorted[i + 1].start;
    Block(cur.level, fmtStart(cur.start), if showEnd then Some("até " + fmtTime(cur.end)) else None)
  }

  /** `buildTimelineBlocks(items)`, with the date formatters `fmtStart` and `fmtTime` as parameters. */
  function BuildTimelineBlocks(items: seq<Warning>, fmtStart: Option<string> -> string, fmtTime: Option<string> -> string): seq<Block> {
    BlocksOf(SortBy(items, StartBefore), fmtStart, fmtTime)
  }

  /** The `map` over the sorted records. */
  function BlocksOf(sorted: seq<Warning>, fmtStart: Option<string> -> string, fmtTime: Option<string> -> string): seq<Block> {
    seq(|sorted|, i requires 0 <= i < |sorted| => BlockAt(sorted, i, fmtStart, fmtTime))
  }

  lemma BlocksOfEndLabels(s: seq<Warning>, fmtStart: Option<string> -> string, fmtTime: Option<string> -> string)
    ensures var b := BlocksOf(s, fmtStart, fmtTime);
      && (b != [] ==> b[|b| - 1].endLabel == Some("até " + fmtTime(s[|s| - 1].end)))
      && (forall i :: 0 <= i < |b| - 1 ==> (b[i].endLabel.None? <==> s[i].end == s[i + 1].start))
      && (forall i :: 0 <= i < |b| && b[i].endLabel.Some? ==> b[i].endLabel.value == "até " + fmtTime(s[i].end))
  {
  }

  /**
   * The records are put in ascending order of `String(start)`, records with
   * equal starts keeping their order.
   */
  lemma TimelineOrder(items: seq<Warning>)
    ensures var s := SortBy(items, StartBefore);
      && |s| == |items|
      && multiset(s) == multiset(items)
      && (forall i, j :: 0 <= i < j < |s| ==> StrLe(StartKey(s[i]), StartKey(s[j])))
      && (forall t :: Ties(s, StartBefore, t) == Ties(items, StartBefore, t))
  {
    SortByLength(items, StartBefore);
    StartBeforeTotalPreorder();
    SortBySorted(items, StartBefore);
    forall t ensures Ties(SortBy(items, StartBefore), StartBefore, t) == Ties(items, StartBefore, t) {
      SortByStable(items, StartBefore, t);
    }
  }

  /** One block per sorted record, carrying its level and its formatted start. */
  lemma TimelineBlocksContent(items: seq<Warning>, fmtStart: Option<string> -> string, fmtTime: Option<string> -> string)
    ensures var b, s := BuildTimelineBlocks(items, fmtStart, fmtTime), SortBy(items, StartBefore);
      && |b| == |s| == |items|
      && (forall i :: 0 <= i < |b| ==> b[i].level == s[i].level && b[i].startLabel == fmtStart(s[i].start))
  {
    SortByLength(items, StartBefore);
  }

  /**
   * The last block always shows its end, and any other block hides it exactly
   * when its end equals the next block's start, compared as strings; a shown
   * end reads "até " and the formatted end time.
   */
  lemma TimelineEndLabels(items: seq<Warning>, fmtStart: Option<string> -> string, fmtTime: Option<string> -> string)
    ensures var b, s := BuildTimelineBlocks(items, fmtStart, fmtTime), SortBy(items, StartBefore);
      && (b != [] ==> b[|b| - 1].endLabel == Some("até " + fmtTime(s[|s| - 1].end)))
      && (forall i :: 0 <= i < |b| - 1 ==> (b[i].endLabel.None? <==> s[i].end == s[i + 1].start))
      && (forall i :: 0 <= i < |b| && b[i].endLabel.Some? ==> b[i].endLabel.value == "até " + fmtTime(s[i].end))
  {
    var s := SortBy(items, StartBefore);
    assert BuildTimelineBlocks(items, fmtStart, fmtTime) == BlocksOf(s, fmtStart, fmtTime);
    BlocksOfEndLabels(s, fmtStart, fmtTime);
  }

  /** When every record ends where the next one starts, only the last block shows an end. */
  lemma ContiguousRunShowsOneEnd(items: seq<Warning>, fmtStart: Option<string> -> string, fmtTime: Option<string> -> string)
    requires var s := SortBy(items, StartBefore);
      forall i :: 0 <= i < |s| - 1 ==> s[i].end == s[i + 1].start
    ensures var b := BuildTimelineBlocks(items, fmtStart, fmtTime);
      forall i :: 0 <= i < |b| ==> (b[i].endLabel.Some? <==> i == |b| - 1)
  {
    SortByLength(items, StartBefore);
  }

  /** The preview's `iconForType(t)`: three substring tests on the lower-cased type. */
  function IconForType(t: string): string {
    var l := Lower(t);
    if Contains(l, "mar") then "🌊"
    else if Contains(l, "vento") then "💨"
    else if Contains(l, "chuva") then "🌧️"
    else "⚠️"
  }

  /** The preview's shorter table: sea, wind and rain only. */
  const IconRules: seq<(seq<string>, string)> := [
    (["mar"], "🌊"),
    (["vento"], "💨"),
    (["chuva"], "🌧️")
  ]

  /** The chain of tests picks the icon of the first rule that matches, "⚠️" when none does. */
  lemma IconForTypeFollowsRules(t: string)
    ensures IconForType(t) == Levels.FirstMatch(IconRules, Lower(t))
  {
    var l := Lower(t);
    var r := IconRules;
    forall i | 0 <= i < |r| ensures Levels.ContainsAny(l, r[i].0) <==> Contains(l, r[i].0[0]) {
      assert r[i].0[1..] == [];
    }
    assert Levels.FirstMatch(r, l) == if Levels.ContainsAny(l, r[0].0) then "🌊" else Levels.FirstMatch(r[1..], l);
    assert Levels.FirstMatch(r[1..], l) == if Levels.ContainsAny(l, r[1].0) then "💨" else Levels.FirstMatch(r[2..], l);
    assert Levels.FirstMatch(r[2..], l) == if Levels.ContainsAny(l, r[2].0) then "🌧️" else Levels.FirstMatch(r[3..], l);
    assert r[3..] == [];
  }

  /**
   * Whenever the preview finds an icon, the widget shows the same one, unless
   * the type mentions "agitação", which the widget tests first.
   */
  lemma IconsAgree(t: string)
    requires IconForType(t) != "⚠️" && !Contains(Lower(t), "agitação")
    ensures Levels.IconForType(t) == IconForType(t)
  {
  }

  /** The preview's `label(l)`: `undefined` (here `None`) for any level but yellow, orange and red. */
  function Label(l: Option<string>): (r: Option<string>)
    ensures r.Some? <==> Priority(l) < 9
    ensures r.Some? ==> r.value == Levels.LevelLabel(l.value)
  {
    if l == Some("yellow") then Some("Amarelo")
    else if l == Some("orange") then Some("Laranja")
    else if l == Some("red") then Some("Vermelho")
    else None
  }

  /** One legend entry: CSS level, label and text. */
  datatype LegendEntry = LegendEntry(level: Option<string>, name: Option<string>, text: Option<string>)

  /** A card of the page. */
  datatype Card = Card(icon: string, title: string, blocks: seq<Block>, legend: seq<LegendEntry>)

  /** What the `content` element ends up showing: "Erro a carregar dados", or the cards. */
  datatype Page = Failed | Shown(cards: seq<Card>)

  function LegendEntries(summaries: seq<Warning>): seq<LegendEntry> {
    seq(|summaries|, j requires 0 <= j < |summaries| =>
      LegendEntry(summaries[j].level, Label(summaries[j].level), summaries[j].text))
  }

  /** The card of a group whose `type` is a string. */
  function CardOf(g: Group, fmtStart: Option<string> -> string, fmtTime: Option<string> -> string): Card
    requires g.kind.Some?
  {
    Card(IconForType(g.kind.value), g.kind.value,
      BuildTimelineBlocks(g.items, fmtStart, fmtTime), LegendEntries(Legend(g.items)))
  }

  /** Every group has a string `type`, so `iconForType(g.type)` does not throw. */
  predicate AllTyped(groups: seq<Group>) {
    forall j :: 0 <= j < |groups| ==> groups[j].kind.Some?
  }

  function CardsOf(groups: seq<Group>, fmtStart: Option<string> -> string, fmtTime: Option<string> -> string): (cards: seq<Card>)
    requires AllTyped(groups)
    ensures |cards| == |groups|
  {
    seq(|groups|, j requires 0 <= j < |groups| => CardOf(groups[j], fmtStart, fmtTime))
  }

  lemma CardsOfAppend(gs: seq<Group>, g: Group, fmtStart: Option<string> -> string, fmtTime: Option<string> -> string)
    requires AllTyped(gs) && g.kind.Some?
    ensures AllTyped(gs + [g])
    ensures CardsOf(gs + [g], fmtStart, fmtTime) == CardsOf(gs, fmtStart, fmtTime) + [CardOf(g, fmtStart, fmtTime)]
  {
    forall j | 0 <= j < |gs| + 1 ensures (gs + [g])[j].kind.Some? {
      if j < |gs| {
        assert (gs + [g])[j] == gs[j];
      }
    }
    var a, b := CardsOf(gs, fmtStart, fmtTime), CardsOf(gs + [g], fmtStart, fmtTime);
    forall j | 0 <= j < |a| ensures b[j] == a[j] {
      assert (gs + [g])[j] == gs[j];
    }
    ExtendedBy(a, b, CardOf(g, fmtStart, fmtTime));
  }

  /**
   * `render(warnings)`: one card per group; a group without a `type` makes
   * `iconForType` throw, and the error handler replaces the page.
   */
  function RenderedPage(ws: seq<Warning>, fmtStart: Option<string> -> string, fmtTime: Option<string> -> string): Page {
    var gs := Grouped(ws);
    if AllTyped(gs) then Shown(CardsOf(gs, fmtStart, fmtTime)) else Failed
  }

  /** The body of `groups.forEach` in `render`, for a group whose `type` is a string. */
  method RenderCard(g: Group, fmtStart: Option<string> -> string, fmtTime: Option<string> -> string)
    returns (card: Card)
    requires g.kind.Some?
    ensures card == CardOf(g, fmtStart, fmtTime)
  {
    var blocks := BuildTimelineBlocks(g.items, fmtStart, fmtTime);
    var summaries := BuildLevelSummaries(g.items);
    var legend := SortBy(summaries, LegendBefore);
    card := Card(IconForType(g.kind.value), g.kind.value, blocks, LegendEntries(legend));
  }

  /** `render(warnings)`. */
  method Render(ws: seq<Warning>, fmtStart: Option<string> -> string, fmtTime: Option<string> -> string)
    returns (page: Page)
    ensures page == RenderedPage(ws, fmtStart, fmtTime)
  {
    var groups := GroupByType(ws);
    var cards: seq<Card> := [];
    for i := 0 to |groups|
      invariant AllTyped(groups[..i])
      invariant cards == CardsOf(groups[..i], fmtStart, fmtTime)
    {
      assert groups[..i + 1] == groups[..i] + [groups[i]];
      var g := groups[i];
      if g.kind.None? {
        return Failed;
      }
      var card := RenderCard(g, fmtStart, fmtTime);
      CardsOfAppend(groups[..i], g, fmtStart, fmtTime);
      cards := cards + [card];
    }
    assert groups[..|groups|] == groups;
    page := Shown(cards);
  }

  /**
   * The page fails exactly when some record has no `type` and is the first
   * record filed under the key "undefined" (a record whose `type` is the
   * string "undefined" that comes first gives the group a usable `type`).
   */
  lemma FailsIffUntypedGroup(ws: seq<Warning>, fmtStart: Option<string> -> string, fmtTime: Option<string> -> string)
    ensures RenderedPage(ws, fmtStart, fmtTime) == Failed <==>
      exists i :: 0 <= i < |ws| && ws[i].kind.None? && IsFirstOfKey(ws, TypeKey, i)
  {
    if !AllTyped(Grouped(ws)) {
      UntypedGroupHasUntypedFirst(ws);
    }
    if exists i :: 0 <= i < |ws| && ws[i].kind.None? && IsFirstOfKey(ws, TypeKey, i) {
      var i :| 0 <= i < |ws| && ws[i].kind.None? && IsFirstOfKey(ws, TypeKey, i);
      UntypedFirstMakesUntypedGroup(ws, i);
    }
  }

  /** A group without `type` got it from the first record of its key. */
  lemma UntypedGroupHasUntypedFirst(ws: seq<Warning>)
    requires !AllTyped(Grouped(ws))
    ensures exists i :: 0 <= i < |ws| && ws[i].kind.None? && IsFirstOfKey(ws, TypeKey, i)
  {
    var ks := Keys(ws, TypeKey);
    var ds := Distinct(ks);
    var gs := Grouped(ws);
    var j :| 0 <= j < |gs| && gs[j].kind.None?;
    var i := FirstIndex(ks, ds[j]);
    assert ws[i].kind.None?;
    forall i' | 0 <= i' < i ensures TypeKey(ws[i']) != TypeKey(ws[i]) {
      assert ks[i'] != ks[i];
    }
    assert IsFirstOfKey(ws, TypeKey, i);
  }

  /** The first record of a key, if it has no `type`, leaves its group without one. */
  lemma UntypedFirstMakesUntypedGroup(ws: seq<Warning>, i: nat)
    requires i < |ws| && ws[i].kind.None? && IsFirstOfKey(ws, TypeKey, i)
    ensures !AllTyped(Grouped(ws))
  {
    var ks := Keys(ws, TypeKey);
    var ds := Distinct(ks);
    assert ks[i] == TypeKey(ws[i]);
    var j := FirstIndex(ds, ks[i]);
    var f := FirstIndex(ks, ks[i]);
    assert TypeKey(ws[f]) == TypeKey(ws[i]);
    assert f == i;
    assert Grouped(ws)[j].kind.None?;
  }

  /** The response as `render` receives it: `data.warnings || []`, or failure. */
  function Show(fetched: Option<Json>, fmtStart: Option<string> -> string, fmtTime: Option<string> -> string): Page {
    match fetched
    case None => Failed                              // the request or `r.json()` failed
    case Some(data) =>
      if data.Null? then Failed                      // reading `warnings` of null throws
      else match WarningsOf(data)
        case Missing => RenderedPage([], fmtStart, fmtTime)
        case NotArray => Failed                      // `ws.forEach` is not a function
        case WarningArray(ws) => RenderedPage(ws, fmtStart, fmtTime)
  }

  /**
   * The page shows the error message exactly when the request or its parse
   * fails, the response is `null`, its `warnings` is truthy but not an array,
   * or `render` meets a group without `type`.
   */
  lemma ShowFailsIff(fetched: Option<Json>, fmtStart: Option<string> -> string, fmtTime: Option<string> -> string)
    ensures Show(fetched, fmtStart, fmtTime) == Failed <==>
      || fetched.None?
      || fetched.value.Null?
      || WarningsOf(fetched.value).NotArray?
      || (&& WarningsOf(fetched.value).WarningArray?
          && var ws := WarningsOf(fetched.value).ws;
             exists i :: 0 <= i < |ws| && ws[i].kind.None? && IsFirstOfKey(ws, TypeKey, i))
  {
    if fetched.Some? && !fetched.value.Null? {
      match WarningsOf(fetched.value)
      case Missing =>
        assert Grouped([]) == [];
      case NotArray =>
      case WarningArray(ws) =>
        FailsIffUntypedGroup(ws, fmtStart, fmtTime);
    }
  }

  /** A response without `warnings` is rendered as an empty list: no cards and no error. */
  lemma NoWarningsNoCards(fetched: Option<Json>, fmtStart: Option<string> -> string, fmtTime: Option<string> -> string)
    requires fetched.Some? && !fetched.value.Null? && WarningsOf(fetched.value).Missing?
    ensures Show(fetched, fmtStart, fmtTime) == Shown([])
  {
    assert Grouped([]) == [];
  }
}
