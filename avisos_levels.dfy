/**
 * Severity levels as the widget script ranks, names and decorates them:
 * `priority`, `getMaxLevel`, `levelLabel` and `iconForType` of avisos-meteo.js.
 */
module AvisosLevels {
  import opened Records
  import opened Text

  /** The known levels, least severe first. */
  const LevelNames: seq<string> := ["green", "yellow", "orange", "red"]

  /** Portuguese names of the known levels, in the order of `LevelNames`. */
  const LevelLabels: seq<string> := ["Verde", "Amarelo", "Laranja", "Vermelho"]

  /** `priority(l)`: 1 to 4 for the known levels in order of severity, 0 for anything else. */
  function Priority(l: string): (r: nat)
    ensures r <= |LevelNames|
    ensures r == 0 <==> l !in LevelNames
    ensures r > 0 ==> LevelNames[r - 1] == l
  {
    if l == "green" then 1
    else if l == "yellow" then 2
    else if l == "orange" then 3
    else if l == "red" then 4
    else 0
  }

  /** The ranking follows the order of `LevelNames` strictly. */
  lemma PriorityStrictlyIncreasing(i: nat, j: nat)
    requires i < j < |LevelNames|
    ensures 0 < Priority(LevelNames[i]) < Priority(LevelNames[j])
  {
  }

  function Max(a: int, b: int): int {
    if a < b then b else a
  }

  /** The `reduce` step of `getMaxLevel`: a later level wins only when strictly higher. */
  function Raise(m: string, l: string): string {
    if Priority(l) > Priority(m) then l else m
  }

  /** Highest priority among `ls`, 0 for none. */
  function MaxPriority(ls: seq<string>): (p: nat)
    ensures p <= |LevelNames|
    ensures forall i :: 0 <= i < |ls| ==> Priority(ls[i]) <= p
    ensures ls != [] ==> exists i :: 0 <= i < |ls| && Priority(ls[i]) == p
  {
    if ls == [] then 0
    else
      var p := MaxPriority(ls[..|ls| - 1]);
      assert forall i :: 0 <= i < |ls| - 1 ==> ls[..|ls| - 1][i] == ls[i];
      Max(p, Priority(ls[|ls| - 1]))
  }

  /** Levels drawn from `ms` reach at most the highest priority of `ms`. */
  lemma MaxPriorityMonotone(ls: seq<string>, ms: seq<string>)
    requires forall l :: l in ls ==> l in ms
    ensures MaxPriority(ls) <= MaxPriority(ms)
  {
    if ls != [] {
      var m :| 0 <= m < |ls| && Priority(ls[m]) == MaxPriority(ls);
      assert ls[m] in ms;
      var i :| 0 <= i < |ms| && ms[i] == ls[m];
    }
  }

  /** `ls.reduce(Raise, "green")`. */
  function MaxLevelOf(ls: seq<string>): (r: string)
    ensures r in LevelNames
    ensures Priority(r) == Max(1, MaxPriority(ls))
  {
    if ls == [] then "green"
    else Raise(MaxLevelOf(ls[..|ls| - 1]), ls[|ls| - 1])
  }

  /**
   * The running maximum is one of the four levels, determined by the highest
   * priority met (so it is the level of the first record that reaches it), and
   * it is either "green" or a level that occurs in `ls`.
   */
  lemma {:induction false} MaxLevelOfIsFirstMaximum(ls: seq<string>)
    ensures MaxLevelOf(ls) == LevelNames[Max(1, MaxPriority(ls)) - 1]
    ensures MaxLevelOf(ls) == "green" || MaxLevelOf(ls) in ls
  {
    if ls != [] {
      var p := ls[..|ls| - 1];
      MaxLevelOfIsFirstMaximum(p);
      assert forall x :: x in p ==> x in ls;
    }
  }

  /** Adding a level never lowers the maximum, and changes it only to that level when strictly higher. */
  lemma MaxLevelGrows(ls: seq<string>, l: string)
    ensures Priority(MaxLevelOf(ls + [l])) >= Priority(MaxLevelOf(ls))
    ensures MaxLevelOf(ls + [l]) != MaxLevelOf(ls) ==>
      MaxLevelOf(ls + [l]) == l && Priority(l) > Priority(MaxLevelOf(ls))
  {
    assert (ls + [l])[..|ls|] == ls;
  }

  /** `(w.level || "green").toLowerCase()`. */
  function NormLevel(w: Warning): string {
    Lower(OrDefault(w.level, "green"))
  }

  function NormLevels(ws: seq<Warning>): seq<string>
  {
    seq(|ws|, i requires 0 <= i < |ws| => NormLevel(ws[i]))
  }

  /** `getMaxLevel(ws)`. */
  function GetMaxLevel(ws: seq<Warning>): string {
    MaxLevelOf(NormLevels(ws))
  }

  /**
   * "green" for no warnings; otherwise the known level whose priority is the
   * highest among the normalised levels (never below green), which is either
   * "green" or the normalised level of one of the records.
   */
  lemma GetMaxLevelSpec(ws: seq<Warning>)
    ensures ws == [] ==> GetMaxLevel(ws) == "green"
    ensures GetMaxLevel(ws) in LevelNames
    ensures Priority(GetMaxLevel(ws)) == Max(1, MaxPriority(NormLevels(ws)))
    ensures GetMaxLevel(ws) == "green" || exists i :: 0 <= i < |ws| && NormLevel(ws[i]) == GetMaxLevel(ws)
  {
    MaxLevelOfIsFirstMaximum(NormLevels(ws));
  }

  /** `levelLabel(l)`: the Portuguese name of a known level, "Aviso" for anything else. */
  function LevelLabel(l: string): (r: string)
    ensures l in LevelNames ==> r == LevelLabels[Priority(l) - 1]
    ensures l !in LevelNames ==> r == "Aviso"
  {
    if l == "yellow" then "Amarelo"
    else if l == "orange" then "Laranja"
    else if l == "red" then "Vermelho"
    else if l == "green" then "Verde"
    else "Aviso"
  }

  /** Distinct levels get distinct labels, and no known level is labelled "Aviso". */
  lemma LevelLabelInjective(a: string, b: string)
    requires a in LevelNames && b in LevelNames && a != b
    ensures LevelLabel(a) != LevelLabel(b) && LevelLabel(a) != "Aviso"
  {
  }

  /** The substring tests of `iconForType`, in the order the chain tries them. */
  const IconRules: seq<(seq<string>, string)> := [
    (["agitação", "mar"], "🌊"),
    (["vento"], "💨"),
    (["precip", "chuva"], "🌧️"),
    (["trovo"], "⛈️"),
    (["nevo"], "🌫️"),
    (["frio"], "🥶"),
    (["calor"], "🥵")
  ]

  const DefaultIcon: string := "⚠️"

  /** One of `words` occurs in `t`. */
  predicate ContainsAny(t: string, words: seq<string>) {
    words != [] && (Contains(t, words[0]) || ContainsAny(t, words[1..]))
  }

  /** The icon of the first rule one of whose words occurs in `t`, `DefaultIcon` if none. */
  function FirstMatch(rules: seq<(seq<string>, string)>, t: string): string {
    if rules == [] then DefaultIcon
    else if ContainsAny(t, rules[0].0) then rules[0].1
    else FirstMatch(rules[1..], t)
  }

  /** `iconForType(type)`. */
  function IconForType(kind: string): string {
    var t := Lower(kind);
    if Contains(t, "agitação") || Contains(t, "mar") then "🌊"
    else if Contains(t, "vento") then "💨"
    else if Contains(t, "precip") || Contains(t, "chuva") then "🌧️"
    else if Contains(t, "trovo") then "⛈️"
    else if Contains(t, "nevo") then "🌫️"
    else if Contains(t, "frio") then "🥶"
    else if Contains(t, "calor") then "🥵"
    else "⚠️"
  }

  /** The chain of tests picks the icon of the first rule that matches, "⚠️" when none does. */
  lemma IconForTypeFollowsRules(kind: string)
    ensures IconForType(kind) == FirstMatch(IconRules, Lower(kind))
  {
    var t := Lower(kind);
    var r := IconRules;
    assert ContainsAny(t, r[0].0) <==> Contains(t, "agitação") || Contains(t, "mar") by {
      var w := r[0].0;
      assert w == ["agitação", "mar"];
      assert w[1..] == ["mar"] && w[1..][1..] == [];
      assert ContainsAny(t, w) == (Contains(t, w[0]) || ContainsAny(t, w[1..]));
      assert ContainsAny(t, w[1..]) == (Contains(t, w[1..][0]) || ContainsAny(t, w[1..][1..]));
    }
    assert ContainsAny(t, r[2].0) <==> Contains(t, "precip") || Contains(t, "chuva") by {
      var w := r[2].0;
      assert w == ["precip", "chuva"];
      assert w[1..] == ["chuva"] && w[1..][1..] == [];
      assert ContainsAny(t, w) == (Contains(t, w[0]) || ContainsAny(t, w[1..]));
      assert ContainsAny(t, w[1..]) == (Contains(t, w[1..][0]) || ContainsAny(t, w[1..][1..]));
    }
    forall i | 0 <= i < |r| && i != 0 && i != 2
      ensures ContainsAny(t, r[i].0) <==> Contains(t, r[i].0[0])
    {
      assert r[i].0[1..] == [];
    }
    assert FirstMatch(r, t) == if ContainsAny(t, r[0].0) then "🌊" else FirstMatch(r[1..], t);
    assert FirstMatch(r[1..], t) == if ContainsAny(t, r[1].0) then "💨" else FirstMatch(r[2..], t);
    assert FirstMatch(r[2..], t) == if ContainsAny(t, r[2].0) then "🌧️" else FirstMatch(r[3..], t);
    assert FirstMatch(r[3..], t) == if ContainsAny(t, r[3].0) then "⛈️" else FirstMatch(r[4..], t);
    assert FirstMatch(r[4..], t) == if ContainsAny(t, r[4].0) then "🌫️" else FirstMatch(r[5..], t);
    assert FirstMatch(r[5..], t) == if ContainsAny(t, r[5].0) then "🥶" else FirstMatch(r[6..], t);
    assert FirstMatch(r[6..], t) == if ContainsAny(t, r[6].0) then "🥵" else FirstMatch(r[7..], t);
    assert r[7..] == [];
  }

  /** The sea test comes first: a type naming both sea and wind gets the wave. */
  lemma SeaBeatsWind(kind: string)
    requires Contains(Lower(kind), "mar") && Contains(Lower(kind), "vento")
    ensures IconForType(kind) == "🌊"
  {
  }
}
