/** The financial triage (src/lib/financial-triage.ts): portfolio totals beside clusters
    of the projects at risk, from one pass over the projects. */
module FinancialTriage {
  import opened Lists
  import opened Clusters
  import opened Options

  datatype BillingType = FixedFee | TimeAndMaterials

  datatype Theme =
    UnbilledMilestoneDelay | ScopeCreepOverrun | SubcontractorRateVariance | LaborBurnAcceleration | Other

  const THEME_ORDER: seq<Theme> :=
    [UnbilledMilestoneDelay, ScopeCreepOverrun, SubcontractorRateVariance, LaborBurnAcceleration, Other]

  const CONTRACTOR_VARIANCE_THRESHOLD_PCT := 40.0

  datatype Project = Project(
    id: string, name: string, bac: real, actualsCost: real, vac: real, healthCost: string,
    billingType: BillingType, clientTier: string, scopeAtRisk: bool, milestoneDelayed: bool,
    contractorCostPct: real, updatedAt: string)

  datatype Item = Item(project: Project, theme: Theme, rag: Rag, varianceUsd: real)

  datatype Tally = Tally(count: nat, bac: real)

  datatype Triage = Triage(
    projectCount: nat, totalBac: real, totalActuals: real, totalVac: real, overBudgetCount: nat, onBudgetCount: nat,
    redCount: nat, amberCount: nat, byBillingType: map<BillingType, Tally>, clusters: seq<Cluster<Theme, Item>>)

  function FinancialRagFor(healthCost: string): Option<Rag> {
    if healthCost == "Red" then Some(Red) else if healthCost == "Amber" then Some(Amber) else None
  }

  function ClassifyFinancialTheme(p: Project): Theme {
    if p.milestoneDelayed && p.billingType == FixedFee then UnbilledMilestoneDelay
    else if p.scopeAtRisk then ScopeCreepOverrun
    else if p.contractorCostPct >= CONTRACTOR_VARIANCE_THRESHOLD_PCT then SubcontractorRateVariance
    else if p.actualsCost > p.bac then LaborBurnAcceleration
    else Other
  }

  // ------------------------------------------------------------ readings

  function Bac(p: Project): real { p.bac }

  function Actuals(p: Project): real { p.actualsCost }

  function Vac(p: Project): real { p.vac }

  function HasRag(rag: Option<Rag>): Project -> bool {
    (p: Project) => FinancialRagFor(p.healthCost) == rag
  }

  function Billed(b: BillingType): Project -> bool {
    (p: Project) => p.billingType == b
  }

  predicate AtRisk(p: Project) {
    FinancialRagFor(p.healthCost) != None
  }

  function ItemOf(p: Project): Item {
    Item(p, ClassifyFinancialTheme(p), if p.healthCost == "Red" then Red else Amber, p.actualsCost - p.bac)
  }

  function AtRiskItems(inputs: seq<Project>): seq<Item> {
    Pick(inputs, AtRisk, ItemOf)
  }

  function BacBilled(b: BillingType): Project -> real {
    (p: Project) => if p.billingType == b then p.bac else 0.0
  }

  function TallyTo(inputs: seq<Project>, n: nat, b: BillingType): Tally
    requires n <= |inputs|
  {
    Tally(CountTo(inputs, n, Billed(b)), SumTo(inputs, n, BacBilled(b)))
  }

  function ThemeOf(i: Item): Theme { i.theme }

  predicate IsRed(i: Item) { i.rag == Red }

  predicate IsAmber(i: Item) { i.rag == Amber }

  function Size(items: seq<Item>): nat { |items| }

  function Variance(i: Item): real { i.varianceUsd }

  const FIGURES: Figures<Item, Theme> := Figures(ThemeOf, IsRed, IsAmber, Size, Variance)

  // ------------------------------------------------------------ the pass

  /** The figures are those of the projects, and the clusters those of the items at risk. */
  predicate Tallied(r: Triage, inputs: seq<Project>) {
    && r.projectCount == |inputs|
    && r.totalBac == Total(inputs, Bac) && r.totalActuals == Total(inputs, Actuals) && r.totalVac == Total(inputs, Vac)
    && r.redCount == Count(inputs, HasRag(Some(Red))) && r.amberCount == Count(inputs, HasRag(Some(Amber)))
    && r.onBudgetCount == Count(inputs, HasRag(None)) && r.overBudgetCount == Count(inputs, AtRisk)
    && r.byBillingType == map[FixedFee := TallyTo(inputs, |inputs|, FixedFee),
                              TimeAndMaterials := TallyTo(inputs, |inputs|, TimeAndMaterials)]
    && r.clusters == Clustered(AtRiskItems(inputs), FIGURES, THEME_ORDER)
  }

  function Tallies(fixed: Tally, timed: Tally): map<BillingType, Tally> {
    map[FixedFee := fixed, TimeAndMaterials := timed]
  }

  function Counting(tallies: map<BillingType, Tally>, p: Project): map<BillingType, Tally>
    requires p.billingType in tallies
  {
    tallies[p.billingType := Tally(tallies[p.billingType].count + 1, tallies[p.billingType].bac + p.bac)]
  }

  lemma CountingNext(inputs: seq<Project>, i: nat)
    requires i < |inputs|
    ensures Counting(Tallies(TallyTo(inputs, i, FixedFee), TallyTo(inputs, i, TimeAndMaterials)), inputs[i]) ==
            Tallies(TallyTo(inputs, i + 1, FixedFee), TallyTo(inputs, i + 1, TimeAndMaterials))
  {
  }

  lemma ColourNext(inputs: seq<Project>, i: nat)
    requires i < |inputs|
    ensures var p := inputs[i];
            var rag := FinancialRagFor(p.healthCost);
            && CountTo(inputs, i + 1, HasRag(Some(Red))) == CountTo(inputs, i, HasRag(Some(Red))) + (if rag == Some(Red) then 1 else 0)
            && CountTo(inputs, i + 1, HasRag(Some(Amber))) == CountTo(inputs, i, HasRag(Some(Amber))) + (if rag == Some(Amber) then 1 else 0)
            && CountTo(inputs, i + 1, HasRag(None)) == CountTo(inputs, i, HasRag(None)) + (if rag == None then 1 else 0)
            && CountTo(inputs, i + 1, AtRisk) == CountTo(inputs, i, AtRisk) + (if rag == None then 0 else 1)
            && PickTo(inputs, i + 1, AtRisk, ItemOf) == PickTo(inputs, i, AtRisk, ItemOf) +
               if rag == None then [] else [Item(p, ClassifyFinancialTheme(p), rag.value, p.actualsCost - p.bac)]
  {
  }

  method BuildFinancialTriage(inputs: seq<Project>) returns (r: Triage)
    ensures Tallied(r, inputs)
  {
    var totalBac, totalActuals, totalVac := 0.0, 0.0, 0.0;
    var overBudgetCount, onBudgetCount, redCount, amberCount := 0, 0, 0, 0;
    var byBillingType := Tallies(Tally(0, 0.0), Tally(0, 0.0));
    var atRisk: seq<Item> := [];
    for i := 0 to |inputs|
      invariant totalBac == SumTo(inputs, i, Bac) && totalActuals == SumTo(inputs, i, Actuals) && totalVac == SumTo(inputs, i, Vac)
      invariant redCount == CountTo(inputs, i, HasRag(Some(Red))) && amberCount == CountTo(inputs, i, HasRag(Some(Amber)))
      invariant onBudgetCount == CountTo(inputs, i, HasRag(None)) && overBudgetCount == CountTo(inputs, i, AtRisk)
      invariant byBillingType == Tallies(TallyTo(inputs, i, FixedFee), TallyTo(inputs, i, TimeAndMaterials))
      invariant atRisk == PickTo(inputs, i, AtRisk, ItemOf)
    {
      var p := inputs[i];
      totalBac, totalActuals, totalVac := totalBac + p.bac, totalActuals + p.actualsCost, totalVac + p.vac;
      byBillingType := Counting(byBillingType, p);
      CountingNext(inputs, i);
      ColourNext(inputs, i);
      var rag := FinancialRagFor(p.healthCost);
      if rag == None {
        onBudgetCount := onBudgetCount + 1;
        continue;
      }
      overBudgetCount := overBudgetCount + 1;
      if rag == Some(Red) { redCount := redCount + 1; } else { amberCount := amberCount + 1; }
      atRisk := atRisk + [Item(p, ClassifyFinancialTheme(p), rag.value, p.actualsCost - p.bac)];
    }
    r := Triage(|inputs|, totalBac, totalActuals, totalVac, overBudgetCount, onBudgetCount, redCount, amberCount,
                byBillingType, Clustered(atRisk, FIGURES, THEME_ORDER));
  }

  /** What the headline counts and adds up, project by project. */
  lemma HeadlineReads(p: Project)
    ensures Bac(p) == p.bac && Actuals(p) == p.actualsCost && Vac(p) == p.vac
    ensures HasRag(Some(Red))(p) <==> p.healthCost == "Red"
    ensures HasRag(Some(Amber))(p) <==> p.healthCost == "Amber"
    ensures AtRisk(p) <==> p.healthCost in {"Red", "Amber"}
    ensures forall b :: (Billed(b)(p) <==> p.billingType == b) && BacBilled(b)(p) == if p.billingType == b then p.bac else 0.0
  {
  }

  /** The headline is complete: every project is counted once, by health, by colour and
      by billing type. */
  lemma HeadlineComplete(r: Triage, inputs: seq<Project>)
    requires Tallied(r, inputs)
    ensures r.onBudgetCount + r.overBudgetCount == r.projectCount
    ensures r.redCount + r.amberCount == r.overBudgetCount
    ensures r.byBillingType[FixedFee].count + r.byBillingType[TimeAndMaterials].count == r.projectCount
    ensures r.byBillingType[FixedFee].bac + r.byBillingType[TimeAndMaterials].bac == r.totalBac
  {
    var n := |inputs|;
    CountUnion(inputs, n, HasRag(Some(Red)), HasRag(Some(Amber)), AtRisk);
    CountUnion(inputs, n, HasRag(None), AtRisk, Anything);
    CountUnion(inputs, n, Billed(FixedFee), Billed(TimeAndMaterials), Anything);
    CountEvery(inputs, n, Anything);
    SumSplit(inputs, n, BacBilled(FixedFee), BacBilled(TimeAndMaterials), Bac);
  }

  predicate Anything(p: Project) { true }

  /** The two tiles agree: the clusters hold exactly the projects at risk, their red,
      amber, project and dollar figures add up to the headline, worst first. */
  lemma TilesAgree(r: Triage, inputs: seq<Project>)
    requires Tallied(r, inputs)
    ensures multiset(AllItems(r.clusters)) == multiset(AtRiskItems(inputs))
    ensures |AtRiskItems(inputs)| == r.overBudgetCount
    ensures Sum(r.clusters, RedOf) == r.redCount as real && Sum(r.clusters, AmberOf) == r.amberCount as real
    ensures Sum(r.clusters, SizeOf) == r.overBudgetCount as real
    ensures Sum(r.clusters, WeightOf) == Sum(AtRiskItems(inputs), Variance)
    ensures SortedBy(r.clusters, WorstFirst)
  {
    var items := AtRiskItems(inputs);
    ThemesListed();
    ClustersHoldAll(items, FIGURES, THEME_ORDER);
    ClustersReconcile(items, FIGURES, THEME_ORDER);
    CountPicked(inputs, |inputs|, AtRisk, ItemOf, IsRed, HasRag(Some(Red)));
    CountPicked(inputs, |inputs|, AtRisk, ItemOf, IsAmber, HasRag(Some(Amber)));
    PickedSize(inputs, |inputs|, AtRisk, ItemOf);
    WorstFirstIsOrder<Item, Theme>();
    SortedIsSorted(Present(items, FIGURES, THEME_ORDER), WorstFirst);
  }

  function Overrun(p: Project): real { p.actualsCost - p.bac }

  function OverrunAtRisk(p: Project): real { if AtRisk(p) then Overrun(p) else 0.0 }

  function OverrunOnBudget(p: Project): real { if AtRisk(p) then 0.0 else Overrun(p) }

  /** The dollars of the clusters and those of the projects on budget make up the
      difference between the headline actuals and the headline budget. */
  lemma DollarsReconcile(r: Triage, inputs: seq<Project>)
    requires Tallied(r, inputs)
    ensures Sum(r.clusters, WeightOf) + Total(inputs, OverrunOnBudget) == r.totalActuals - r.totalBac
  {
    var n := |inputs|;
    TilesAgree(r, inputs);
    SumPicked(inputs, n, AtRisk, ItemOf, Variance, OverrunAtRisk);
    SumSplit(inputs, n, OverrunAtRisk, OverrunOnBudget, Overrun);
    SumSplit(inputs, n, Overrun, Bac, Actuals);
  }

  /** What the themes mean for the money: a labour-burn cluster is over budget, the
      catch-all one is not, and a milestone cluster holds fixed-fee projects only. */
  lemma ClusterDollars(r: Triage, inputs: seq<Project>, c: Cluster<Theme, Item>)
    requires Tallied(r, inputs) && c in r.clusters
    ensures c.theme == LaborBurnAcceleration ==> c.weight > 0.0
    ensures c.theme == Other ==> c.weight <= 0.0
    ensures c.theme == UnbilledMilestoneDelay ==> forall i :: 0 <= i < |c.items| ==> c.items[i].project.billingType == FixedFee
  {
    ClustersExactly(AtRiskItems(inputs), FIGURES, THEME_ORDER, c);
    forall i | 0 <= i < |c.items|
      ensures c.theme == LaborBurnAcceleration ==> Variance(c.items[i]) > 0.0
      ensures c.theme == Other ==> Variance(c.items[i]) <= 0.0
      ensures c.theme == UnbilledMilestoneDelay ==> c.items[i].project.billingType == FixedFee
    {
      MemberDollars(inputs, c.theme, c.items[i]);
    }
    if c.theme == LaborBurnAcceleration { SumPositive(c.items, Variance); }
    if c.theme == Other { SumNotPositive(c.items, Variance); }
  }

  /** A project is filed under the first cause in the order of the themes that it shows,
      so every project in a cluster shows its cause and none of those before. */
  lemma ClusterCauses(r: Triage, inputs: seq<Project>, c: Cluster<Theme, Item>, i: nat)
    requires Tallied(r, inputs) && c in r.clusters && i < |c.items|
    ensures var p := c.items[i].project;
            var delayed, contractors := p.milestoneDelayed && p.billingType == FixedFee, p.contractorCostPct >= 40.0;
            && (c.theme == UnbilledMilestoneDelay <==> delayed)
            && (c.theme == ScopeCreepOverrun <==> p.scopeAtRisk && !delayed)
            && (c.theme == SubcontractorRateVariance <==> contractors && !p.scopeAtRisk && !delayed)
            && (c.theme == LaborBurnAcceleration <==> p.actualsCost > p.bac && !contractors && !p.scopeAtRisk && !delayed)
            && Variance(c.items[i]) == c.items[i].varianceUsd == p.actualsCost - p.bac
            && (if c.items[i].rag == Red then p.healthCost == "Red" else p.healthCost == "Amber")
  {
    ClustersExactly(AtRiskItems(inputs), FIGURES, THEME_ORDER, c);
    KeepIn(AtRiskItems(inputs), Has(ThemeOf, c.theme), c.items[i]);
    var p := PickedFrom(inputs, |inputs|, AtRisk, ItemOf, c.items[i]);
  }

  lemma MemberDollars(inputs: seq<Project>, theme: Theme, item: Item)
    requires item in Keep(AtRiskItems(inputs), Has(ThemeOf, theme))
    ensures theme == LaborBurnAcceleration ==> Variance(item) > 0.0
    ensures theme == Other ==> Variance(item) <= 0.0
    ensures theme == UnbilledMilestoneDelay ==> item.project.billingType == FixedFee
  {
    KeepIn(AtRiskItems(inputs), Has(ThemeOf, theme), item);
    var p := PickedFrom(inputs, |inputs|, AtRisk, ItemOf, item);
  }

  lemma ThemesListed()
    ensures Distinct(THEME_ORDER) && forall theme: Theme :: theme in THEME_ORDER
  {
    forall theme: Theme ensures theme in THEME_ORDER {
      match theme
      case UnbilledMilestoneDelay => assert THEME_ORDER[0] == theme;
      case ScopeCreepOverrun => assert THEME_ORDER[1] == theme;
      case SubcontractorRateVariance => assert THEME_ORDER[2] == theme;
      case LaborBurnAcceleration => assert THEME_ORDER[3] == theme;
      case Other => assert THEME_ORDER[4] == theme;
    }
  }
}
