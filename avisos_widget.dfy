/**
 * The decisions `runWidget` and `renderTypeCard` of avisos-meteo.js take:
 * which source of warnings to show (fresh data, the cached payload, or
 * nothing), when the cache is written, the header pill, the empty state, the
 * order of the type cards, the timeline rows of a card with their overflow
 * count, and the "Offline · cache" line.
 *
 * The request, the cache file and the clock are inputs: `fetched` is the
 * parsed response (`None` when the request or the parse fails), `file` the
 * state of the cache file, `now` the ISO time stamp. The widget itself is
 * reduced to the `View` value it would display.
 */
module AvisosWidget {
  import opened Records
  import opened Text
  import opened Collect
  import opened Sorting
  import opened AvisosLevels
  import opened AvisosData

  /** `MAX_ROWS`: 14 timeline rows for the large widget, 10 otherwise. */
  function MaxRows(family: Option<string>): nat
  {
    if family == Some("large") then 14 else 10
  }

  /** The group sort, `cmp(a, b) = priority(b.maxLevel) - priority(a.maxLevel)`. */
  function GroupBefore(a: Group, b: Group): bool {
    Priority(b.maxLevel) - Priority(a.maxLevel) <= 0
  }

  lemma GroupBeforeTotalPreorder()
    ensures TotalPreorder(GroupBefore)
  {
  }

  /** `String(it.start || "")`. */
  function StartKey(it: Item): string {
    OrDefault(it.start, "")
  }

  /** The timeline sort, `String(a.start || "").localeCompare(String(b.start || ""))`. */
  function StartBefore(a: Item, b: Item): bool {
    StrLe(StartKey(a), StartKey(b))
  }

  lemma StartBeforeTotalPreorder()
    ensures TotalPreorder(StartBefore)
  {
    forall a: Item, b: Item ensures StartBefore(a, b) || StartBefore(b, a) {
      StrLeTotal(StartKey(a), StartKey(b));
    }
    forall a: Item, b: Item, c: Item | StartBefore(a, b) && StartBefore(b, c)
      ensures StartBefore(a, c)
    {
      StrLeTransitive(StartKey(a), StartKey(b), StartKey(c));
    }
  }

  /** One entry of the right-hand column: the upper-cased level name and the summary text. */
  datatype LegendLine = LegendLine(level: string, name: string, text: string)

  function LegendOf(summaries: seq<Item>): seq<LegendLine>
  {
    seq(|summaries|, j requires 0 <= j < |summaries| =>
      LegendLine(summaries[j].level, Upper(LevelLabel(summaries[j].level)), summaries[j].text))
  }

  /** A rendered type card: icon, title, legend, the timeline rows shown, and the "+n" count. */
  datatype Card = Card(icon: string, title: string, legend: seq<LegendLine>, rows: seq<Item>, more: Option<nat>)

  /** `renderTypeCard(w, group, ui)` as a value. */
  function TypeCard(g: Group, maxRows: nat): Card {
    var sorted := SortBy(g.items, StartBefore);
    Card(
      IconForType(g.kind),
      g.kind,
      LegendOf(LevelSummaries(g.items)),
      if |sorted| <= maxRows then sorted else sorted[..maxRows],
      if |sorted| > maxRows then Some(|sorted| - maxRows) else None)
  }

  /** `renderTypeCard(w, group, ui)`. */
  method RenderTypeCard(g: Group, maxRows: nat) returns (card: Card)
    ensures card == TypeCard(g, maxRows)
  {
    var summaries := BuildLevelSummaries(g.items);
    var items := SortBy(g.items, StartBefore);
    var more: Option<nat> := None;
    if |items| > maxRows {
      more := Some(|items| - maxRows);
    }
    var rows := if |items| <= maxRows then items else items[..maxRows];
    card := Card(IconForType(g.kind), g.kind, LegendOf(summaries), rows, more);
  }

  /**
   * The timeline shows at most `maxRows` items; the "+n" count appears exactly
   * when items are left over, and adds up with the rows to the group's size.
   */
  lemma TypeCardRowCount(g: Group, maxRows: nat)
    ensures var c := TypeCard(g, maxRows);
      && |c.rows| == (if |g.items| <= maxRows then |g.items| else maxRows)
      && (c.more.Some? <==> |g.items| > maxRows)
      && (c.more.Some? ==> c.more.value > 0 && |c.rows| + c.more.value == |g.items|)
  {
    SortByLength(g.items, StartBefore);
  }

  /**
   * The right-hand column of a card has one line per distinct level of the
   * group, most severe first; each line shows the upper-cased label of its
   * level and the text of the group's first item at that level.
   */
  lemma TypeCardLegend(g: Group, maxRows: nat)
    ensures var legend := TypeCard(g, maxRows).legend;
      && (forall l :: l in Keys(g.items, LevelKey) <==> exists j :: 0 <= j < |legend| && legend[j].level == l)
      && (forall i, j :: 0 <= i < j < |legend| ==> legend[i].level != legend[j].level)
      && (forall i, j :: 0 <= i < j < |legend| ==> Priority(legend[i].level) >= Priority(legend[j].level))
      && (forall j :: 0 <= j < |legend| ==>
            var f := IndexOfKey(g.items, LevelKey, legend[j].level);
            && f < |g.items|
            && legend[j].name == Upper(LevelLabel(legend[j].level))
            && legend[j].text == g.items[f].text)
  {
    assert TypeCard(g, maxRows).legend == LegendOf(LevelSummaries(g.items));
    SummaryLegend(g.items);
  }

  lemma SummaryLegend(items: seq<Item>)
    ensures var legend := LegendOf(LevelSummaries(items));
      && (forall l :: l in Keys(items, LevelKey) <==> exists j :: 0 <= j < |legend| && legend[j].level == l)
      && (forall i, j :: 0 <= i < j < |legend| ==> legend[i].level != legend[j].level)
      && (forall i, j :: 0 <= i < j < |legend| ==> Priority(legend[i].level) >= Priority(legend[j].level))
      && (forall j :: 0 <= j < |legend| ==>
            var f := IndexOfKey(items, LevelKey, legend[j].level);
            && f < |items|
            && legend[j].name == Upper(LevelLabel(legend[j].level))
            && legend[j].text == items[f].text)
  {
    var r := LevelSummaries(items);
    var legend := LegendOf(r);
    var ls := Keys(r, LevelKey);
    LevelSummariesSpec(items);
    assert |legend| == |r| == |ls|;
    assert forall j :: 0 <= j < |r| ==> legend[j].level == ls[j] == r[j].level;
    forall j | 0 <= j < |legend|
      ensures IndexOfKey(items, LevelKey, legend[j].level) < |items|
      ensures items[IndexOfKey(items, LevelKey, legend[j].level)].text == legend[j].text
    {
      FirstItemAtLevel(items, r[j]);
    }
  }

  /** The lookup of a first occurrence's level finds that very item. */
  lemma FirstItemAtLevel(items: seq<Item>, x: Item)
    requires IsFirstOccurrence(items, LevelKey, x)
    ensures IndexOfKey(items, LevelKey, x.level) < |items|
    ensures items[IndexOfKey(items, LevelKey, x.level)] == x
  {
    var i :| 0 <= i < |items| && items[i] == x && IsFirstOfKey(items, LevelKey, i);
    var f := IndexOfKey(items, LevelKey, x.level);
    assert LevelKey(items[i]) == x.level;
    assert f <= i;
  }

  /** What is left after the first `m` elements is the rest of the sequence. */
  lemma SplitMultiset(s: seq<Item>, m: nat)
    requires m <= |s|
    ensures multiset(s[..m]) <= multiset(s)
    ensures multiset(s) - multiset(s[..m]) == multiset(s[m..])
  {
    assert s == s[..m] + s[m..];
  }

  /** A prefix of a sequence sorted by start: ordered itself, and no later element starts earlier. */
  lemma SortedPrefix(s: seq<Item>, m: nat)
    requires Sorted(s, StartBefore) && m <= |s|
    ensures forall i, j :: 0 <= i < j < m ==> StrLe(StartKey(s[..m][i]), StartKey(s[..m][j]))
    ensures forall r, h :: r in s[..m] && h in s[m..] ==> StrLe(StartKey(r), StartKey(h))
  {
    forall r, h | r in s[..m] && h in s[m..]
      ensures StrLe(StartKey(r), StartKey(h))
    {
      var i :| 0 <= i < m && s[..m][i] == r;
      var k :| 0 <= k < |s| - m && s[m..][k] == h;
      assert s[i] == r && s[m + k] == h;
    }
  }

  /**
   * The rows shown are items of the group in order of start, all of them when
   * they fit, and no hidden item starts before a shown one.
   */
  lemma TypeCardRowsEarliest(g: Group, maxRows: nat)
    ensures var c := TypeCard(g, maxRows);
      && (forall i, j :: 0 <= i < j < |c.rows| ==> StrLe(StartKey(c.rows[i]), StartKey(c.rows[j])))
      && multiset(c.rows) <= multiset(g.items)
      && (|g.items| <= maxRows ==> multiset(c.rows) == multiset(g.items))
      && (forall r, h :: r in c.rows && h in multiset(g.items) - multiset(c.rows) ==>
            StrLe(StartKey(r), StartKey(h)))
  {
    var sorted := SortBy(g.items, StartBefore);
    SortByLength(g.items, StartBefore);
    StartBeforeTotalPreorder();
    SortBySorted(g.items, StartBefore);
    var m := if |sorted| <= maxRows then |sorted| else maxRows;
    assert TypeCard(g, maxRows).rows == sorted[..m];
    SortedPrefix(sorted, m);
    SplitMultiset(sorted, m);
    assert multiset(sorted) == multiset(g.items);
    forall h | h in multiset(g.items) - multiset(sorted[..m]) ensures h in sorted[m..] {
      assert h in multiset(sorted[m..]);
    }
  }

  /** The state of the cache file when the script starts. */
  datatype CacheFile = NoFile | Unreadable | Stored(contents: Json)

  /** `cached` after step 1: the parsed file, `null` when it is missing or does not parse. */
  function ReadCache(file: CacheFile): Json
  {
    match file
    case Stored(j) => j
    case _ => Null
  }

  /** `data` after step 2: the parsed response, `null` when the request failed. */
  function FreshData(fetched: Option<Json>): Json {
    match fetched
    case Some(j) => j
    case None => Null
  }

  /** `data && Array.isArray(data.warnings)`. */
  predicate UsableFresh(data: Json) {
    Truthy(data) && HasWarningArray(data)
  }

  /** `cached && cached.payload && Array.isArray(cached.payload.warnings)`. */
  predicate UsableCache(cached: Json) {
    && Truthy(cached)
    && cached.Obj?
    && cached.payload.Some?
    && Truthy(cached.payload.value)
    && HasWarningArray(cached.payload.value)
  }

  /** What the script ends up showing: the warnings and `isFromCache`. */
  datatype Source = Source(warnings: seq<Warning>, fromCache: bool)

  /** The choice of `payload` and `isFromCache`, followed by `payload.warnings || []`. */
  function SelectSource(data: Json, cached: Json): Source {
    if UsableFresh(data) then Source(WarningsOf(data).ws, false)
    else if UsableCache(cached) then Source(WarningsOf(cached.payload.value).ws, true)
    else Source([], false)
  }

  /** The cache file written in step 2, `{ savedAt: now, payload: data }`, if any. */
  function CacheWrite(data: Json, now: string): Option<Json> {
    if Truthy(data) && IsTypeofObject(data) && HasWarningArray(data)
    then Some(Obj(Missing, Some(now), Some(data)))
    else None
  }

  /** `v.savedAt` of a value that is not `null`. */
  function SavedAt(v: Json): Option<string> {
    if v.Obj? then v.savedAt else None
  }

  /** The offline line of the empty state: `isFromCache && cached && cached.savedAt`. */
  function EmptyStateOffline(fromCache: bool, cached: Json): Option<string> {
    if fromCache && Truthy(cached) && SavedAt(cached).Some? && SavedAt(cached).value != ""
    then SavedAt(cached)
    else None
  }

  /** The offline line of the footer: `isFromCache && savedAtIso`, given `cached ? cached.savedAt : null`. */
  function FooterOffline(fromCache: bool, savedAtIso: Option<string>): Option<string> {
    if fromCache && savedAtIso.Some? && savedAtIso.value != "" then savedAtIso else None
  }

  /** The body below the header: the empty-state message, or one card per type. */
  datatype Body = NoWarnings | Cards(cards: seq<Card>)

  /** What the widget shows: the pill's count and level, the body, and the cache time of the offline line. */
  datatype View = View(count: nat, level: string, body: Body, offline: Option<string>)

  function CardsFor(groups: seq<Group>, maxRows: nat): seq<Card>
  {
    seq(|groups|, j requires 0 <= j < |groups| => TypeCard(groups[j], maxRows))
  }

  /** The groups in the order of the cards: by descending `maxLevel`. */
  function OrderedGroups(ws: seq<Warning>): seq<Group> {
    SortBy(Grouped(ws), GroupBefore)
  }

  /** Everything `runWidget` displays, as a function of its inputs. */
  function WidgetView(family: Option<string>, file: CacheFile, fetched: Option<Json>): View {
    var cached := ReadCache(file);
    var src := SelectSource(FreshData(fetched), cached);
    var ws := src.warnings;
    if ws == [] then
      View(0, GetMaxLevel(ws), NoWarnings, EmptyStateOffline(src.fromCache, cached))
    else
      View(|ws|, GetMaxLevel(ws), Cards(CardsFor(OrderedGroups(ws), MaxRows(family))),
        FooterOffline(src.fromCache, if Truthy(cached) then SavedAt(cached) else None))
  }

  /** The loop of `runWidget` that renders one card per group, in order. */
  method RenderCards(groups: seq<Group>, maxRows: nat) returns (cards: seq<Card>)
    ensures cards == CardsFor(groups, maxRows)
  {
    cards := [];
    for i := 0 to |groups|
      invariant cards == CardsFor(groups[..i], maxRows)
    {
      assert groups[..i + 1] == groups[..i] + [groups[i]];
      var card := RenderTypeCard(groups[i], maxRows);
      cards := cards + [card];
    }
    assert groups[..|groups|] == groups;
  }

  /** `runWidget()`: returns what it displays and the cache file it writes, if any. */
  method RunWidget(family: Option<string>, file: CacheFile, fetched: Option<Json>, now: string)
    returns (view: View, written: Option<Json>)
    ensures view == WidgetView(family, file, fetched)
    ensures written == CacheWrite(FreshData(fetched), now)
  {
    // 1) the cache first
    var cached := Null;
    if file.Stored? {
      cached := file.contents;
    }

    // 2) the request; on failure `data` stays null
    var data := Null;
    written := None;
    if fetched.Some? {
      data := fetched.value;
      if Truthy(data) && IsTypeofObject(data) && HasWarningArray(data) {
        written := Some(Obj(Missing, Some(now), Some(data)));
      }
    }

    // the source: fresh data, else the cached payload, else no warnings
    var payload := Null;
    var isFromCache := false;
    if Truthy(data) && HasWarningArray(data) {
      payload := data;
    } else if Truthy(cached) && cached.Obj? && cached.payload.Some?
      && Truthy(cached.payload.value) && HasWarningArray(cached.payload.value)
    {
      payload := cached.payload.value;
      isFromCache := true;
    } else {
      payload := Obj(WarningArray([]), None, None);
    }
    var warnings := if HasWarningArray(payload) then WarningsOf(payload).ws else [];
    ghost var src := SelectSource(FreshData(fetched), ReadCache(file));
    assert warnings == src.warnings && isFromCache == src.fromCache && cached == ReadCache(file);

    var count, maxLevel := |warnings|, GetMaxLevel(warnings);
    if |warnings| == 0 {
      view := View(count, maxLevel, NoWarnings, EmptyStateOffline(isFromCache, cached));
      return;
    }

    var groups := GroupByType(warnings);
    groups := SortBy(groups, GroupBefore);
    var cards := RenderCards(groups, MaxRows(family));
    view := View(count, maxLevel, Cards(cards),
      FooterOffline(isFromCache, if Truthy(cached) then SavedAt(cached) else None));
  }

  /**
   * Fresh data with a `warnings` array always wins and is not marked as cached;
   * otherwise a cached payload with a `warnings` array is used and marked;
   * otherwise there are no warnings.
   */
  lemma SourcePreference(data: Json, cached: Json)
    ensures var src := SelectSource(data, cached);
      && (src.fromCache <==> !UsableFresh(data) && UsableCache(cached))
      && (UsableFresh(data) ==> src.warnings == WarningsOf(data).ws)
      && (src.fromCache ==> src.warnings == WarningsOf(cached.payload.value).ws)
      && (!UsableFresh(data) && !UsableCache(cached) ==> src.warnings == [])
  {
  }

  /**
   * The cache is written exactly when the fresh data is used: the `typeof`
   * test adds nothing to `Array.isArray(data.warnings)`.
   */
  lemma CacheWrittenIffFreshUsed(data: Json, cached: Json, now: string)
    ensures CacheWrite(data, now).Some? <==> UsableFresh(data)
    ensures CacheWrite(data, now).Some? ==> !SelectSource(data, cached).fromCache
  {
  }

  /**
   * A cache that was written is usable: a later run whose request fails shows
   * the same pill and cards as the run that wrote it, marked offline since `now`.
   */
  lemma CacheRoundTrip(family: Option<string>, file: CacheFile, data: Json, now: string)
    requires CacheWrite(data, now).Some?
    ensures var later := WidgetView(family, Stored(CacheWrite(data, now).value), None);
      var online := WidgetView(family, file, Some(data));
      && later.count == online.count
      && later.level == online.level
      && later.body == online.body
      && later.offline == (if now != "" then Some(now) else None)
  {
    var stored := CacheWrite(data, now).value;
    var ws := WarningsOf(data).ws;
    assert SelectSource(FreshData(Some(data)), ReadCache(file)) == Source(ws, false);
    assert SelectSource(FreshData(None), ReadCache(Stored(stored))) == Source(ws, true);
  }

  /** A cache file that does not parse is treated as no cache at all. */
  lemma UnreadableCacheIsNoCache(family: Option<string>, fetched: Option<Json>)
    ensures WidgetView(family, Unreadable, fetched) == WidgetView(family, NoFile, fetched)
    ensures !UsableCache(ReadCache(Unreadable))
  {
  }

  /** The two offline tests, in the empty state and in the footer, agree. */
  lemma OfflineTestsAgree(fromCache: bool, cached: Json)
    ensures EmptyStateOffline(fromCache, cached) ==
      FooterOffline(fromCache, if Truthy(cached) then SavedAt(cached) else None)
  {
  }

  /**
   * The offline line appears only when the cache was used and holds a
   * non-empty `savedAt`, and then it shows that time stamp.
   */
  lemma OfflineLine(family: Option<string>, file: CacheFile, fetched: Option<Json>)
    ensures var cached := ReadCache(file);
      var src := SelectSource(FreshData(fetched), cached);
      var v := WidgetView(family, file, fetched);
      && (v.offline.Some? <==> src.fromCache && SavedAt(cached).Some? && SavedAt(cached).value != "")
      && (v.offline.Some? ==> file.Stored? && !UsableFresh(FreshData(fetched)) && v.offline == file.contents.savedAt)
  {
  }

  /**
   * "Sem avisos relevantes." is shown exactly when there are no warnings, and
   * then the pill reads 0 with the level green.
   */
  lemma EmptyState(family: Option<string>, file: CacheFile, fetched: Option<Json>)
    ensures var v := WidgetView(family, file, fetched);
      && (v.body == NoWarnings <==> v.count == 0)
      && (v.count == 0 ==> v.level == "green")
      && (v.body.Cards? ==> v.body.cards != [])
  {
    var ws := SelectSource(FreshData(fetched), ReadCache(file)).warnings;
    if ws != [] {
      var ks := Keys(ws, TypeOf);
      assert ks[0] in Distinct(ks);
      SortByLength(Grouped(ws), GroupBefore);
    }
  }

  /**
   * Every card of the widget shows `MAX_ROWS` timeline rows at most (14 on the
   * large widget, 10 otherwise), all of its group's items when they fit, and
   * a "+n" line exactly when some are left over.
   */
  lemma WidgetCardRows(family: Option<string>, file: CacheFile, fetched: Option<Json>)
    ensures var v := WidgetView(family, file, fetched);
      var gs := OrderedGroups(SelectSource(FreshData(fetched), ReadCache(file)).warnings);
      var m := if family == Some("large") then 14 else 10;
      v.body.Cards? ==>
        && |v.body.cards| == |gs|
        && forall j :: 0 <= j < |gs| ==>
          && |v.body.cards[j].rows| == (if |gs[j].items| <= m then |gs[j].items| else m)
          && (v.body.cards[j].more.Some? <==> |gs[j].items| > m)
  {
    var gs := OrderedGroups(SelectSource(FreshData(fetched), ReadCache(file)).warnings);
    var v := WidgetView(family, file, fetched);
    if v.body.Cards? {
      assert v.body.cards == CardsFor(gs, MaxRows(family));
      forall j | 0 <= j < |gs|
        ensures |v.body.cards[j].rows| == (if |gs[j].items| <= MaxRows(family) then |gs[j].items| else MaxRows(family))
        ensures v.body.cards[j].more.Some? <==> |gs[j].items| > MaxRows(family)
      {
        assert v.body.cards[j] == TypeCard(gs[j], MaxRows(family));
        TypeCardRowCount(gs[j], MaxRows(family));
      }
    }
  }

  /**
   * The cards come in order of descending group level, one per type; groups
   * of the same level keep the order in which their types first appear.
   */
  lemma CardOrder(ws: seq<Warning>)
    ensures var gs := OrderedGroups(ws);
      && multiset(gs) == multiset(Grouped(ws))
      && (forall i, j :: 0 <= i < j < |gs| ==> Priority(gs[i].maxLevel) >= Priority(gs[j].maxLevel))
      && (forall t :: Ties(gs, GroupBefore, t) == Ties(Grouped(ws), GroupBefore, t))
  {
    GroupBeforeTotalPreorder();
    SortBySorted(Grouped(ws), GroupBefore);
    forall t ensures Ties(OrderedGroups(ws), GroupBefore, t) == Ties(Grouped(ws), GroupBefore, t) {
      SortByStable(Grouped(ws), GroupBefore, t);
    }
  }

  /** The level of the `m`-th item of a group is the level of some record. */
  lemma GroupLevelOccurs(ws: seq<Warning>, k: string, m: int)
    requires 0 <= m < |GroupOf(k, ws).items|
    ensures Keys(GroupOf(k, ws).items, LevelKey)[m] in NormLevels(ws)
  {
    var b := Bucket(ws, TypeOf, k);
    var items := GroupOf(k, ws).items;
    assert items == NormalizeAll(b);
    assert Keys(items, LevelKey)[m] == LevelKey(items[m]) == NormLevel(b[m]);
    assert b[m] in ws;
    var i :| 0 <= i < |ws| && ws[i] == b[m];
    assert NormLevels(ws)[i] == NormLevel(b[m]);
  }

  /** No group's level is above the overall maximum level. */
  lemma GroupLevelBounded(ws: seq<Warning>, j: int)
    requires 0 <= j < |Grouped(ws)|
    ensures Priority(Grouped(ws)[j].maxLevel) <= Max(1, MaxPriority(NormLevels(ws)))
  {
    var ks := Distinct(Keys(ws, TypeOf));
    var g := Grouped(ws)[j];
    assert g == GroupOf(ks[j], ws);
    var ls := Keys(g.items, LevelKey);
    forall l | l in ls ensures l in NormLevels(ws) {
      var m :| 0 <= m < |ls| && ls[m] == l;
      GroupLevelOccurs(ws, ks[j], m);
    }
    MaxPriorityMonotone(ls, NormLevels(ws));
    assert Priority(g.maxLevel) == Max(1, MaxPriority(ls));
  }

  /** A record's level never ranks above the level of its group. */
  lemma RecordBelowItsGroup(ws: seq<Warning>, i: int) returns (j: nat)
    requires 0 <= i < |ws|
    ensures j < |Grouped(ws)| && Priority(NormLevel(ws[i])) <= Priority(Grouped(ws)[j].maxLevel)
  {
    var ks, k := Keys(ws, TypeOf), TypeOf(ws[i]);
    assert ks[i] == k;
    var b := Bucket(ws, TypeOf, k);
    var m :| 0 <= m < |b| && b[m] == ws[i];
    j := FirstIndex(Distinct(ks), k);
    var items := NormalizeAll(b);
    assert Grouped(ws)[j] == GroupOf(k, ws);
    assert items[m] == Normalize(b[m]);
    assert Keys(items, LevelKey)[m] == LevelKey(items[m]) == NormLevel(ws[i]);
  }

  /** The group holding a record of the highest level reaches the overall maximum. */
  lemma SomeGroupReachesMax(ws: seq<Warning>) returns (j: nat)
    requires ws != []
    ensures j < |Grouped(ws)|
    ensures Priority(Grouped(ws)[j].maxLevel) == Max(1, MaxPriority(NormLevels(ws)))
  {
    var ls := NormLevels(ws);
    var i :| 0 <= i < |ws| && Priority(ls[i]) == MaxPriority(ls);
    j := RecordBelowItsGroup(ws, i);
    GroupLevelBounded(ws, j);
  }

  /** The first card's group is at the overall maximum level. */
  lemma FirstCardReachesMax(ws: seq<Warning>)
    requires ws != []
    ensures OrderedGroups(ws) != []
    ensures OrderedGroups(ws)[0].maxLevel in LevelNames
    ensures Priority(OrderedGroups(ws)[0].maxLevel) == Max(1, MaxPriority(NormLevels(ws)))
  {
    var gs := Grouped(ws);
    var j := SomeGroupReachesMax(ws);
    CardOrder(ws);
    var os := OrderedGroups(ws);
    var k := PositionInPermutation(gs, os, j);
    var j0 := PositionInPermutation(os, gs, 0);
    GroupLevelBounded(ws, j0);
    GroupMaxLevel(ws, j0);
  }

  /** The pill shows the level of the first card: the most severe group sets it. */
  lemma PillMatchesFirstCard(ws: seq<Warning>)
    requires ws != []
    ensures OrderedGroups(ws) != []
    ensures GetMaxLevel(ws) == OrderedGroups(ws)[0].maxLevel
  {
    FirstCardReachesMax(ws);
    GetMaxLevelSpec(ws);
  }
}
