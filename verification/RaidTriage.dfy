/** The RAID triage (src/lib/raid-triage.ts): every open item filed under the theme whose
    vocabulary it uses most. The vocabulary is a parameter; texts are folded by `lower`. */
module RaidTriage {
  import opened Lists
  import opened Clusters
  import opened Options
  import opened Strings

  datatype Theme = ResourceBottleneck | IntegrationData | ScopeCreep | VendorDelay | Other

  const THEME_ORDER: seq<Theme> := [ResourceBottleneck, IntegrationData, ScopeCreep, VendorDelay, Other]

  datatype RaidType = Risk | Assumption | Issue | Dependency

  datatype Severity = Low | Med | High | Critical

  datatype Entry = Entry(
    id: string, projectId: string, raidType: RaidType, title: Option<string>, description: string,
    impact: Option<string>, severity: Severity)

  datatype Item = Item(entry: Entry, theme: Theme, rag: Rag)

  datatype Triage = Triage(
    items: seq<Item>, totalCount: nat, redCount: nat, amberCount: nat, byType: map<RaidType, nat>,
    clusters: seq<Cluster<Theme, Item>>)

  function RagFor(s: Severity): Rag {
    if s == Critical || s == High then Red else Amber
  }

  /** The title, description and impact that are there, with a space between. */
  function ItemText(e: Entry, lower: string -> string): string {
    lower(Join(Given(e.title) + Given(Some(e.description)) + Given(e.impact)))
  }

  function Given(text: Option<string>): seq<string> {
    if text.None? || text.value == "" then [] else [text.value]
  }

  function Join(texts: seq<string>): string {
    if |texts| == 0 then "" else if |texts| == 1 then texts[0] else Join(texts[..|texts| - 1]) + " " + texts[|texts| - 1]
  }

  // --------------------------------------------------------------- classification

  function InText(text: string): string -> bool {
    (word: string) => Includes(text, word)
  }

  function ThemeScore(text: string, words: seq<string>): nat {
    Count(words, InText(text))
  }

  /** The best of the first `n` themes and its score. */
  function BestTo(text: string, words: Theme -> seq<string>, n: nat): (Theme, nat)
    requires n <= |THEME_ORDER|
  {
    if n == 0 then (Other, 0)
    else
      var best := BestTo(text, words, n - 1);
      var theme := THEME_ORDER[n - 1];
      if theme != Other && ThemeScore(text, words(theme)) > best.1 then (theme, ThemeScore(text, words(theme))) else best
  }

  function ClassifyRaidTheme(text: string, words: Theme -> seq<string>): Theme {
    BestTo(text, words, |THEME_ORDER|).0
  }

  method ClassifyTheme(text: string, words: Theme -> seq<string>) returns (best: Theme)
    ensures best == ClassifyRaidTheme(text, words)
  {
    best := Other;
    var bestScore := 0;
    for i := 0 to |THEME_ORDER|
      invariant (best, bestScore) == BestTo(text, words, i)
    {
      var theme := THEME_ORDER[i];
      if theme == Other { continue; }
      var keywords := words(theme);
      var score := 0;
      for k := 0 to |keywords|
        invariant score == CountTo(keywords, k, InText(text))
      {
        if Includes(text, keywords[k]) { score := score + 1; }
      }
      if score > bestScore { bestScore, best := score, theme; }
    }
  }

  /** The score a theme competes with: the catch-all has none. */
  function Claim(text: string, words: Theme -> seq<string>, theme: Theme): nat {
    if theme == Other then 0 else ThemeScore(text, words(theme))
  }

  lemma {:induction false} BestIsMaximum(text: string, words: Theme -> seq<string>, n: nat)
    requires n <= |THEME_ORDER|
    ensures var best := BestTo(text, words, n);
            && best.1 == Claim(text, words, best.0)
            && (forall i :: 0 <= i < n ==> Claim(text, words, THEME_ORDER[i]) <= best.1)
            && (best.0 != Other ==> exists i :: 0 <= i < n && FirstBest(text, words, i, best.0))
            && (best.0 == Other <==> best.1 == 0)
  {
    if n > 0 {
      BestIsMaximum(text, words, n - 1);
      var before, best := BestTo(text, words, n - 1), BestTo(text, words, n);
      if best.1 > before.1 {
        assert FirstBest(text, words, n - 1, best.0);
      } else if best.0 != Other {
        var i :| 0 <= i < n - 1 && FirstBest(text, words, i, before.0);
        assert FirstBest(text, words, i, best.0);
      }
    }
  }

  /** The theme stands at place `i`, with more hits than any theme before it. */
  predicate FirstBest(text: string, words: Theme -> seq<string>, i: nat, theme: Theme)
    requires i < |THEME_ORDER|
  {
    && THEME_ORDER[i] == theme
    && Claim(text, words, theme) > 0
    && forall j :: 0 <= j < i ==> Claim(text, words, THEME_ORDER[j]) < Claim(text, words, theme)
  }

  predicate NoMore(text: string, words: Theme -> seq<string>, theme: Theme) {
    forall i :: 0 <= i < |THEME_ORDER| ==> Claim(text, words, THEME_ORDER[i]) <= Claim(text, words, theme)
  }

  /** An item goes to the catch-all if and only if no keyword of any theme occurs in it;
      otherwise to the theme with the most keywords, the first of these in the order of
      display. */
  lemma ThemeIsArgMax(text: string, words: Theme -> seq<string>, theme: Theme)
    ensures theme == ClassifyRaidTheme(text, words) <==>
            if theme == Other then forall i :: 0 <= i < |THEME_ORDER| ==> Claim(text, words, THEME_ORDER[i]) == 0
            else NoMore(text, words, theme) && exists i :: 0 <= i < |THEME_ORDER| && FirstBest(text, words, i, theme)
  {
    BestIsMaximum(text, words, |THEME_ORDER|);
    var best := ClassifyRaidTheme(text, words);
    ThemesListed();
    if theme != Other && NoMore(text, words, theme) && theme != best {
      forall i | 0 <= i < |THEME_ORDER| ensures !FirstBest(text, words, i, theme) {
      }
    }
  }

  /** The catch-all is for exactly the texts in which no keyword of any theme occurs. */
  lemma CatchAllExactly(text: string, words: Theme -> seq<string>)
    ensures ClassifyRaidTheme(text, words) == Other <==>
            forall theme, k :: theme != Other && 0 <= k < |words(theme)| ==> !Occurs(text, words(theme)[k])
  {
    forall theme ensures Claim(text, words, theme) == 0 <==>
                         theme == Other || forall k :: 0 <= k < |words(theme)| ==> !Occurs(text, words(theme)[k])
    {
      ClaimMeaning(text, words, theme);
    }
    ThemesListed();
    ThemeIsArgMax(text, words, Other);
    AllClaims(text, words);
  }

  lemma ClaimMeaning(text: string, words: Theme -> seq<string>, theme: Theme)
    ensures Claim(text, words, theme) == 0 <==>
            theme == Other || forall k :: 0 <= k < |words(theme)| ==> !Occurs(text, words(theme)[k])
  {
    var keywords := words(theme);
    CountPositive(keywords, |keywords|, InText(text));
    forall k | 0 <= k < |keywords| ensures InText(text)(keywords[k]) <==> Occurs(text, keywords[k]) {
      IncludesExactly(text, keywords[k]);
    }
  }

  lemma AllClaims(text: string, words: Theme -> seq<string>)
    ensures (forall i :: 0 <= i < |THEME_ORDER| ==> Claim(text, words, THEME_ORDER[i]) == 0) <==>
            forall theme :: Claim(text, words, theme) == 0
  {
    ThemesListed();
    if forall i :: 0 <= i < |THEME_ORDER| ==> Claim(text, words, THEME_ORDER[i]) == 0 {
      forall theme ensures Claim(text, words, theme) == 0 {
        assert theme in THEME_ORDER;
      }
    }
  }

  lemma ThemesListed()
    ensures Distinct(THEME_ORDER) && forall theme: Theme :: theme in THEME_ORDER
  {
    forall theme: Theme ensures theme in THEME_ORDER {
      match theme
      case ResourceBottleneck => assert THEME_ORDER[0] == theme;
      case IntegrationData => assert THEME_ORDER[1] == theme;
      case ScopeCreep => assert THEME_ORDER[2] == theme;
      case VendorDelay => assert THEME_ORDER[3] == theme;
      case Other => assert THEME_ORDER[4] == theme;
    }
  }

  // ---------------------------------------------------------------- aggregation

  function ItemOf(words: Theme -> seq<string>, lower: string -> string): Entry -> Item {
    (e: Entry) => Item(e, ClassifyRaidTheme(ItemText(e, lower), words), RagFor(e.severity))
  }

  /** An item's text is its title, description and impact, as far as they are there and not
      empty, with a space between them, folded. */
  lemma TextOf(e: Entry, lower: string -> string)
    ensures var t, d, i := e.title, e.description, e.impact;
            var titled, told := t.Some? && t.value != "", i.Some? && i.value != "";
            && (titled && d != "" && told ==> ItemText(e, lower) == lower(t.value + " " + d + " " + i.value))
            && (titled && d != "" && !told ==> ItemText(e, lower) == lower(t.value + " " + d))
            && (!titled && d != "" && told ==> ItemText(e, lower) == lower(d + " " + i.value))
            && (!titled && d != "" && !told ==> ItemText(e, lower) == lower(d))
            && (titled && d == "" && told ==> ItemText(e, lower) == lower(t.value + " " + i.value))
            && (titled && d == "" && !told ==> ItemText(e, lower) == lower(t.value))
            && (!titled && d == "" && told ==> ItemText(e, lower) == lower(i.value))
            && (!titled && d == "" && !told ==> ItemText(e, lower) == lower(""))
  {
    var texts := Given(e.title) + Given(Some(e.description)) + Given(e.impact);
    if |texts| > 0 { JoinLast(texts[..|texts| - 1], texts[|texts| - 1]); }
    if |texts| > 1 { JoinLast(texts[..|texts| - 2], texts[|texts| - 2]); }
  }

  lemma JoinLast(front: seq<string>, last: string)
    ensures Join(front + [last]) == if front == [] then last else Join(front) + " " + last
  {
    assert (front + [last])[..|front|] == front;
  }

  /** An item keeps its entry, is filed by its text, and is red exactly when critical or high. */
  lemma ItemIs(e: Entry, words: Theme -> seq<string>, lower: string -> string)
    ensures var item := ItemOf(words, lower)(e);
            && item.entry == e && item.theme == ClassifyRaidTheme(ItemText(e, lower), words)
            && (item.rag == Red <==> e.severity == Critical || e.severity == High)
  {
  }

  function OfType(t: RaidType): Item -> bool {
    (i: Item) => i.entry.raidType == t
  }

  function ThemeOf(i: Item): Theme { i.theme }

  predicate IsRed(i: Item) { i.rag == Red }

  predicate IsAmber(i: Item) { i.rag == Amber }

  /** The distinct projects of the items. */
  function Projects(items: seq<Item>): set<string> {
    set i | 0 <= i < |items| :: items[i].entry.projectId
  }

  function ProjectCount(items: seq<Item>): nat { |Projects(items)| }

  function One(i: Item): real { 1.0 }

  const FIGURES: Figures<Item, Theme> := Figures(ThemeOf, IsRed, IsAmber, ProjectCount, One)

  method CountItems(items: seq<Item>) returns (byType: map<RaidType, nat>, redCount: nat, amberCount: nat)
    ensures forall t: RaidType :: t in byType && byType[t] == Count(items, OfType(t))
    ensures redCount == Count(items, IsRed) && amberCount == Count(items, IsAmber)
  {
    byType := map[Risk := 0, Assumption := 0, Issue := 0, Dependency := 0];
    redCount, amberCount := 0, 0;
    forall t: RaidType ensures t in byType && byType[t] == 0 {
      match t case Risk => case Assumption => case Issue => case Dependency =>
    }
    for i := 0 to |items|
      invariant forall t: RaidType :: t in byType && byType[t] == CountTo(items, i, OfType(t))
      invariant redCount == CountTo(items, i, IsRed) && amberCount == CountTo(items, i, IsAmber)
    {
      var item := items[i];
      byType := byType[item.entry.raidType := byType[item.entry.raidType] + 1];
      if item.rag == Red { redCount := redCount + 1; } else { amberCount := amberCount + 1; }
    }
  }

  method BuildRaidTriage(inputs: seq<Entry>, words: Theme -> seq<string>, lower: string -> string) returns (r: Triage)
    ensures r.items == Mapped(inputs, ItemOf(words, lower)) && r.totalCount == |inputs|
    ensures r.redCount == Count(r.items, IsRed) && r.amberCount == Count(r.items, IsAmber)
    ensures forall t: RaidType :: t in r.byType && r.byType[t] == Count(r.items, OfType(t))
    ensures r.clusters == Clustered(r.items, FIGURES, THEME_ORDER)
  {
    var items := Mapped(inputs, ItemOf(words, lower));
    var byType, redCount, amberCount := CountItems(items);
    r := Triage(items, |items|, redCount, amberCount, byType, Clustered(items, FIGURES, THEME_ORDER));
  }

  /** Every item has one type and one colour; the clusters hold every item once, and
      their figures add up to the headline, the most widely spread first. */
  lemma TilesAgree(items: seq<Item>)
    ensures var cs := Clustered(items, FIGURES, THEME_ORDER);
            && multiset(AllItems(cs)) == multiset(items)
            && Count(items, IsRed) + Count(items, IsAmber) == |items|
            && Count(items, OfType(Risk)) + Count(items, OfType(Assumption)) + Count(items, OfType(Issue))
               + Count(items, OfType(Dependency)) == |items|
            && Sum(cs, RedOf) == Count(items, IsRed) as real && Sum(cs, AmberOf) == Count(items, IsAmber) as real
            && Sum(cs, SizeOf) == |items| as real
            && SortedBy(cs, WorstFirst)
  {
    ThemesListed();
    ClustersHoldAll(items, FIGURES, THEME_ORDER);
    ClustersReconcile(items, FIGURES, THEME_ORDER);
    CountIs(items, IsRed);
    CountIs(items, IsAmber);
    KeepSplit(items, IsRed, IsAmber);
    TypesSplit(items, |items|);
    WorstFirstIsOrder<Item, Theme>();
    SortedIsSorted(Present(items, FIGURES, THEME_ORDER), WorstFirst);
  }

  lemma {:induction false} TypesSplit(items: seq<Item>, n: nat)
    requires n <= |items|
    ensures CountTo(items, n, OfType(Risk)) + CountTo(items, n, OfType(Assumption))
            + CountTo(items, n, OfType(Issue)) + CountTo(items, n, OfType(Dependency)) == n
  {
    if n > 0 { TypesSplit(items, n - 1); }
  }

  /** A cluster's project count: never more than its items, and one exactly when they
      all belong to the same project. */
  lemma ProjectSpread(items: seq<Item>)
    requires items != []
    ensures 1 <= ProjectCount(items)
    ensures ProjectCount(items) == 1 <==> forall i :: 0 <= i < |items| ==> items[i].entry.projectId == items[0].entry.projectId
  {
    var first := items[0].entry.projectId;
    assert first in Projects(items);
    assert {first} <= Projects(items);
    if ProjectCount(items) == 1 {
      assert Projects(items) - {first} == {} by {
        assert |Projects(items) - {first}| == |Projects(items)| - 1;
      }
      forall i | 0 <= i < |items| ensures items[i].entry.projectId == first {
        assert items[i].entry.projectId in Projects(items);
      }
    }
    if forall i :: 0 <= i < |items| ==> items[i].entry.projectId == first {
      assert Projects(items) == {first};
    }
  }
}
