/** The commercial triage (src/lib/commercial-triage.ts): contracted value and lock state
    beside clusters of the projects at risk. */
module CommercialTriage {
  import opened Lists
  import opened Clusters
  import opened Options

  datatype CommercialModel = FixedFee | TimeAndMaterials

  datatype Theme = ChangeOrderExposure | MarginSqueezeFixedFee | BlendedRateErosion | ExceededBaselineScopeCap | Other

  const THEME_ORDER: seq<Theme> :=
    [ChangeOrderExposure, MarginSqueezeFixedFee, BlendedRateErosion, ExceededBaselineScopeCap, Other]

  datatype Project = Project(
    id: string, name: string, bac: real, actualsCost: real, healthCost: string, healthScope: string,
    commercialModel: CommercialModel, locked: bool, hasChangeOrderActivity: bool, updatedAt: string)

  datatype Item = Item(project: Project, theme: Theme, rag: Rag, varianceUsd: real)

  datatype Tally = Tally(count: nat, bac: real)

  datatype Triage = Triage(
    projectCount: nat, totalContractedValue: real, lockedCount: nat, draftCount: nat,
    byCommercialModel: map<CommercialModel, Tally>, redCount: nat, amberCount: nat, clusters: seq<Cluster<Theme, Item>>)

  function CommercialRagFor(p: Project): Option<Rag> {
    if p.healthCost == "Red" then Some(Red)
    else if p.healthCost == "Amber" || p.healthScope == "Red" || p.hasChangeOrderActivity then Some(Amber)
    else None
  }

  function ClassifyCommercialTheme(p: Project): Theme {
    if p.hasChangeOrderActivity then ChangeOrderExposure
    else if p.commercialModel == FixedFee && p.healthCost != "Green" then MarginSqueezeFixedFee
    else if p.commercialModel == TimeAndMaterials && p.healthCost != "Green" then BlendedRateErosion
    else if p.healthScope == "Red" then ExceededBaselineScopeCap
    else Other
  }

  // ------------------------------------------------------------ readings

  function Bac(p: Project): real { p.bac }

  predicate Locked(p: Project) { p.locked }

  predicate Draft(p: Project) { !p.locked }

  function HasRag(rag: Option<Rag>): Project -> bool {
    (p: Project) => CommercialRagFor(p) == rag
  }

  function Sold(m: CommercialModel): Project -> bool {
    (p: Project) => p.commercialModel == m
  }

  function BacSold(m: CommercialModel): Project -> real {
    (p: Project) => if p.commercialModel == m then p.bac else 0.0
  }

  function TallyTo(inputs: seq<Project>, n: nat, m: CommercialModel): Tally
    requires n <= |inputs|
  {
    Tally(CountTo(inputs, n, Sold(m)), SumTo(inputs, n, BacSold(m)))
  }

  predicate AtRisk(p: Project) {
    CommercialRagFor(p) != None
  }

  function ItemOf(p: Project): Item {
    Item(p, ClassifyCommercialTheme(p), if CommercialRagFor(p) == Some(Red) then Red else Amber, p.actualsCost - p.bac)
  }

  function AtRiskItems(inputs: seq<Project>): seq<Item> {
    Pick(inputs, AtRisk, ItemOf)
  }

  function ThemeOf(i: Item): Theme { i.theme }

  predicate IsRed(i: Item) { i.rag == Red }

  predicate IsAmber(i: Item) { i.rag == Amber }

  function Size(items: seq<Item>): nat { |items| }

  function Variance(i: Item): real { i.varianceUsd }

  const FIGURES: Figures<Item, Theme> := Figures(ThemeOf, IsRed, IsAmber, Size, Variance)

  // ------------------------------------------------------------ the pass

  /** The figures are those of the projects, and the clusters those of the items at risk. */
  predicate Tallied(r: Triage, inputs: seq<Project>) {
    && r.projectCount == |inputs|
    && r.totalContractedValue == Total(inputs, Bac)
    && r.lockedCount == Count(inputs, Locked) && r.draftCount == Count(inputs, Draft)
    && r.redCount == Count(inputs, HasRag(Some(Red))) && r.amberCount == Count(inputs, HasRag(Some(Amber)))
    && r.byCommercialModel == map[FixedFee := TallyTo(inputs, |inputs|, FixedFee),
                                  TimeAndMaterials := TallyTo(inputs, |inputs|, TimeAndMaterials)]
    && r.clusters == Clustered(AtRiskItems(inputs), FIGURES, THEME_ORDER)
  }

  function Tallies(fixed: Tally, timed: Tally): map<CommercialModel, Tally> {
    map[FixedFee := fixed, TimeAndMaterials := timed]
  }

  function Counting(tallies: map<CommercialModel, Tally>, p: Project): map<CommercialModel, Tally>
    requires p.commercialModel in tallies
  {
    tallies[p.commercialModel := Tally(tallies[p.commercialModel].count + 1, tallies[p.commercialModel].bac + p.bac)]
  }

  lemma CountingNext(inputs: seq<Project>, i: nat)
    requires i < |inputs|
    ensures Counting(Tallies(TallyTo(inputs, i, FixedFee), TallyTo(inputs, i, TimeAndMaterials)), inputs[i]) ==
            Tallies(TallyTo(inputs, i + 1, FixedFee), TallyTo(inputs, i + 1, TimeAndMaterials))
  {
  }

  lemma ColourNext(inputs: seq<Project>, i: nat)
    requires i < |inputs|
    ensures var p := inputs[i];
            var rag := CommercialRagFor(p);
            && CountTo(inputs, i + 1, HasRag(Some(Red))) == CountTo(inputs, i, HasRag(Some(Red))) + (if rag == Some(Red) then 1 else 0)
            && CountTo(inputs, i + 1, HasRag(Some(Amber))) == CountTo(inputs, i, HasRag(Some(Amber))) + (if rag == Some(Amber) then 1 else 0)
            && PickTo(inputs, i + 1, AtRisk, ItemOf) == PickTo(inputs, i, AtRisk, ItemOf) +
               if rag == None then [] else [Item(p, ClassifyCommercialTheme(p), rag.value, p.actualsCost - p.bac)]
  {
  }

  method BuildCommercialTriage(inputs: seq<Project>) returns (r: Triage)
    ensures Tallied(r, inputs)
  {
    var totalContractedValue := 0.0;
    var lockedCount, draftCount, redCount, amberCount := 0, 0, 0, 0;
    var byCommercialModel := Tallies(Tally(0, 0.0), Tally(0, 0.0));
    var atRisk: seq<Item> := [];
    for i := 0 to |inputs|
      invariant totalContractedValue == SumTo(inputs, i, Bac)
      invariant lockedCount == CountTo(inputs, i, Locked) && draftCount == CountTo(inputs, i, Draft)
      invariant redCount == CountTo(inputs, i, HasRag(Some(Red))) && amberCount == CountTo(inputs, i, HasRag(Some(Amber)))
      invariant byCommercialModel == Tallies(TallyTo(inputs, i, FixedFee), TallyTo(inputs, i, TimeAndMaterials))
      invariant atRisk == PickTo(inputs, i, AtRisk, ItemOf)
    {
      var p := inputs[i];
      totalContractedValue := totalContractedValue + p.bac;
      if p.locked { lockedCount := lockedCount + 1; } else { draftCount := draftCount + 1; }
      byCommercialModel := Counting(byCommercialModel, p);
      CountingNext(inputs, i);
      ColourNext(inputs, i);
      var rag := CommercialRagFor(p);
      if rag == None { continue; }
      if rag == Some(Red) { redCount := redCount + 1; } else { amberCount := amberCount + 1; }
      atRisk := atRisk + [Item(p, ClassifyCommercialTheme(p), rag.value, p.actualsCost - p.bac)];
    }
    r := Triage(|inputs|, totalContractedValue, lockedCount, draftCount, byCommercialModel, redCount, amberCount,
                Clustered(atRisk, FIGURES, THEME_ORDER));
  }

  /** What the headline counts and adds up, project by project. */
  lemma HeadlineReads(p: Project)
    ensures Bac(p) == p.bac && (Locked(p) <==> p.locked)
    ensures HasRag(Some(Red))(p) <==> p.healthCost == "Red"
    ensures HasRag(Some(Amber))(p) <==>
            p.healthCost != "Red" && (p.healthCost == "Amber" || p.healthScope == "Red" || p.hasChangeOrderActivity)
    ensures forall m :: (Sold(m)(p) <==> p.commercialModel == m) && BacSold(m)(p) == if p.commercialModel == m then p.bac else 0.0
  {
  }

  predicate Anything(p: Project) { true }

  /** Every project is counted once, by lock state and by commercial model. */
  lemma HeadlineComplete(r: Triage, inputs: seq<Project>)
    requires Tallied(r, inputs)
    ensures r.lockedCount + r.draftCount == r.projectCount
    ensures r.byCommercialModel[FixedFee].count + r.byCommercialModel[TimeAndMaterials].count == r.projectCount
    ensures r.byCommercialModel[FixedFee].bac + r.byCommercialModel[TimeAndMaterials].bac == r.totalContractedValue
  {
    var n := |inputs|;
    CountUnion(inputs, n, Locked, Draft, Anything);
    CountUnion(inputs, n, Sold(FixedFee), Sold(TimeAndMaterials), Anything);
    CountEvery(inputs, n, Anything);
    SumSplit(inputs, n, BacSold(FixedFee), BacSold(TimeAndMaterials), Bac);
  }

  /** The two tiles agree: the clusters hold exactly the projects at risk, their red,
      amber, project and dollar figures add up to the headline, worst first. */
  lemma TilesAgree(r: Triage, inputs: seq<Project>)
    requires Tallied(r, inputs)
    ensures multiset(AllItems(r.clusters)) == multiset(AtRiskItems(inputs))
    ensures Sum(r.clusters, RedOf) == r.redCount as real && Sum(r.clusters, AmberOf) == r.amberCount as real
    ensures Sum(r.clusters, SizeOf) == (r.redCount + r.amberCount) as real
    ensures Sum(r.clusters, WeightOf) == Sum(AtRiskItems(inputs), Variance)
    ensures SortedBy(r.clusters, WorstFirst)
  {
    var items := AtRiskItems(inputs);
    ThemesListed();
    ClustersHoldAll(items, FIGURES, THEME_ORDER);
    ClustersReconcile(items, FIGURES, THEME_ORDER);
    CountPicked(inputs, |inputs|, AtRisk, ItemOf, IsRed, HasRag(Some(Red)));
    CountPicked(inputs, |inputs|, AtRisk, ItemOf, IsAmber, HasRag(Some(Amber)));
    KeepSplit(items, IsRed, IsAmber);
    WorstFirstIsOrder<Item, Theme>();
    SortedIsSorted(Present(items, FIGURES, THEME_ORDER), WorstFirst);
  }

  lemma ThemesListed()
    ensures Distinct(THEME_ORDER) && forall theme: Theme :: theme in THEME_ORDER
  {
    forall theme: Theme ensures theme in THEME_ORDER {
      match theme
      case ChangeOrderExposure => assert THEME_ORDER[0] == theme;
      case MarginSqueezeFixedFee => assert THEME_ORDER[1] == theme;
      case BlendedRateErosion => assert THEME_ORDER[2] == theme;
      case ExceededBaselineScopeCap => assert THEME_ORDER[3] == theme;
      case Other => assert THEME_ORDER[4] == theme;
    }
  }

  /** The colour and the theme are decided by separate lists that fit together: no
      cluster is without a named cause, and the scope-cap cluster is never red. */
  lemma ClusterColours(r: Triage, inputs: seq<Project>, c: Cluster<Theme, Item>)
    requires Tallied(r, inputs) && c in r.clusters
    ensures c.theme != Other
    ensures c.theme == ExceededBaselineScopeCap ==> c.redCount == 0
    ensures c.redCount + c.amberCount == c.projectCount == |c.items|
  {
    var items := AtRiskItems(inputs);
    ClustersExactly(items, FIGURES, THEME_ORDER, c);
    KeepSplit(c.items, IsRed, IsAmber);
    forall i | 0 <= i < |c.items|
      ensures c.theme != Other
      ensures c.theme == ExceededBaselineScopeCap ==> !IsRed(c.items[i])
    {
      MemberColour(inputs, c.theme, c.items[i]);
    }
    if c.theme == ExceededBaselineScopeCap { KeepNone(c.items, IsRed); }
    MemberColour(inputs, c.theme, c.items[0]);
  }

  /** A project is filed under the first cause in the order of the themes that it shows,
      so every project in a cluster shows its cause and none of those before. */
  lemma ClusterCauses(r: Triage, inputs: seq<Project>, c: Cluster<Theme, Item>, i: nat)
    requires Tallied(r, inputs) && c in r.clusters && i < |c.items|
    ensures var p := c.items[i].project;
            var change, squeezed := p.hasChangeOrderActivity, p.healthCost != "Green";
            && (c.theme == ChangeOrderExposure <==> change)
            && (c.theme == MarginSqueezeFixedFee <==> squeezed && p.commercialModel == FixedFee && !change)
            && (c.theme == BlendedRateErosion <==> squeezed && p.commercialModel == TimeAndMaterials && !change)
            && (c.theme == ExceededBaselineScopeCap <==> p.healthScope == "Red" && !squeezed && !change)
            && Variance(c.items[i]) == c.items[i].varianceUsd == p.actualsCost - p.bac
            && (c.items[i].rag == Red <==> p.healthCost == "Red")
  {
    ClustersExactly(AtRiskItems(inputs), FIGURES, THEME_ORDER, c);
    KeepIn(AtRiskItems(inputs), Has(ThemeOf, c.theme), c.items[i]);
    var p := Picked(inputs, |inputs|, c.items[i]);
  }

  lemma MemberColour(inputs: seq<Project>, theme: Theme, item: Item)
    requires item in Keep(AtRiskItems(inputs), Has(ThemeOf, theme))
    ensures theme != Other
    ensures theme == ExceededBaselineScopeCap ==> !IsRed(item)
  {
    KeepIn(AtRiskItems(inputs), Has(ThemeOf, theme), item);
    var p := Picked(inputs, |inputs|, item);
  }

  /** An item at risk was made from a project at risk. */
  lemma {:induction false} Picked(inputs: seq<Project>, n: nat, item: Item) returns (p: Project)
    requires n <= |inputs| && item in PickTo(inputs, n, AtRisk, ItemOf)
    ensures AtRisk(p) && item == ItemOf(p)
  {
    var q := inputs[n - 1];
    if AtRisk(q) && item == ItemOf(q) { p := q; } else { p := Picked(inputs, n - 1, item); }
  }
}
