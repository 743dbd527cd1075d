/** The resource triage (src/lib/resource-triage.ts): blended utilisation beside clusters
    of the billable heads at risk. Role names are taken in lower case. */
module ResourceTriage {
  import opened Lists
  import opened Clusters
  import opened Options
  import opened Strings
  import Capacity

  datatype Theme =
    SeniorArchitectOverallocation | LeadPmContention | JuniorAnalystUnderutilization | BenchUnderutilization | Other

  const THEME_ORDER: seq<Theme> :=
    [SeniorArchitectOverallocation, LeadPmContention, JuniorAnalystUnderutilization, BenchUnderutilization, Other]

  const OVER_ALLOCATION_THRESHOLD := 1.1
  const UNDER_UTILIZATION_ATTAINMENT_THRESHOLD := 0.7

  const SENIOR_ROLE_KEYWORDS: seq<string> := ["architect", "principal", "director", "vp ", "head of"]
  const PM_ROLE_KEYWORDS: seq<string> := ["project manager", "program manager", "delivery manager", "engagement manager"]
  const JUNIOR_ROLE_KEYWORDS: seq<string> := ["analyst", "associate", "junior", "coordinator"]

  /** A row of the capacity engine with the role name and the projects. */
  datatype Head = Head(row: Capacity.Row, roleName: Option<string>, projectIds: seq<string>)

  datatype Item = Item(head: Head, theme: Theme, rag: Rag)

  datatype Triage = Triage(
    resourceCount: nat, utilizationPct: real, targetUtilPct: real, benchCount: nat, severelyOverAllocatedCount: nat,
    redCount: nat, amberCount: nat, optimalCount: nat, clusters: seq<Cluster<Theme, Item>>)

  predicate RoleMatches(roleName: Option<string>, keywords: seq<string>) {
    roleName.Some? && roleName.value != ""
    && ((exists i :: 0 <= i < |keywords| && Includes(roleName.value, keywords[i])) || roleName.value == "pm")
  }

  /** A role matches a list if and only if one of its keywords occurs in the name, or the
      name is just "pm", whatever the list. */
  lemma RoleMatchesExactly(roleName: Option<string>, keywords: seq<string>)
    ensures RoleMatches(roleName, keywords) <==>
            && roleName.Some? && roleName.value != ""
            && (roleName.value == "pm" || exists i :: 0 <= i < |keywords| && Occurs(roleName.value, keywords[i]))
  {
    if roleName.Some? {
      forall i | 0 <= i < |keywords| ensures Includes(roleName.value, keywords[i]) <==> Occurs(roleName.value, keywords[i]) {
        IncludesExactly(roleName.value, keywords[i]);
      }
    }
  }

  /** Nothing is the optimal band. */
  function ResourceHealthRag(h: Head): Option<Rag> {
    if h.row.utilizationPct > OVER_ALLOCATION_THRESHOLD || h.row.overloaded then Some(Red)
    else if h.row.attainmentPct < UNDER_UTILIZATION_ATTAINMENT_THRESHOLD then Some(Amber)
    else None
  }

  function ClassifyResourceTheme(h: Head, rag: Rag): Theme {
    if rag == Red && RoleMatches(h.roleName, SENIOR_ROLE_KEYWORDS) then SeniorArchitectOverallocation
    else if rag == Red && RoleMatches(h.roleName, PM_ROLE_KEYWORDS) then LeadPmContention
    else if rag == Amber && RoleMatches(h.roleName, JUNIOR_ROLE_KEYWORDS) then JuniorAnalystUnderutilization
    else if rag == Amber && h.row.projectCount == 0 then BenchUnderutilization
    else Other
  }

  /** The role name "pm" matches every list of keywords, so that a head with that role is
      never filed under contention for lead PMs: a red one is filed under senior
      over-allocation and an amber one under junior under-utilisation. */
  lemma PlainPm(h: Head, rag: Rag)
    requires h.roleName == Some("pm")
    ensures ClassifyResourceTheme(h, rag) == if rag == Red then SeniorArchitectOverallocation else JuniorAnalystUnderutilization
  {
  }

  lemma ThemesListed()
    ensures Distinct(THEME_ORDER) && forall theme: Theme :: theme in THEME_ORDER
  {
    forall theme: Theme ensures theme in THEME_ORDER {
      match theme
      case SeniorArchitectOverallocation => assert THEME_ORDER[0] == theme;
      case LeadPmContention => assert THEME_ORDER[1] == theme;
      case JuniorAnalystUnderutilization => assert THEME_ORDER[2] == theme;
      case BenchUnderutilization => assert THEME_ORDER[3] == theme;
      case Other => assert THEME_ORDER[4] == theme;
    }
  }

  // ------------------------------------------------------------------ readings

  predicate IsBillable(h: Head) { h.row.isBillableHead }

  function RowOf(h: Head): Capacity.Row { h.row }

  function Billed(h: Head): real { h.row.billableHours }

  function Available(h: Head): real { h.row.availableHours }

  function Fte(h: Head): real { h.row.fte }

  function Target(h: Head): real { h.row.targetUtilPct * h.row.fte }

  predicate OnBench(h: Head) { h.row.projectCount == 0 }

  predicate SeverelyOver(h: Head) { h.row.utilizationPct > OVER_ALLOCATION_THRESHOLD }

  function HasRag(rag: Option<Rag>): Head -> bool {
    (h: Head) => ResourceHealthRag(h) == rag
  }

  predicate AtRisk(h: Head) { ResourceHealthRag(h) != None }

  function ItemOf(h: Head): Item {
    var rag := if ResourceHealthRag(h) == Some(Red) then Red else Amber;
    Item(h, ClassifyResourceTheme(h, rag), rag)
  }

  function AtRiskItems(billable: seq<Head>): seq<Item> {
    Pick(billable, AtRisk, ItemOf)
  }

  /** The distinct projects that the items touch. */
  function Projects(items: seq<Item>): set<string> {
    if |items| == 0 then {}
    else Projects(items[..|items| - 1]) + Ids(items[|items| - 1].head.projectIds)
  }

  function Ids(ids: seq<string>): set<string> {
    set i | 0 <= i < |ids| :: ids[i]
  }

  function ProjectCount(items: seq<Item>): nat { |Projects(items)| }

  function ThemeOf(i: Item): Theme { i.theme }

  predicate IsRed(i: Item) { i.rag == Red }

  predicate IsAmber(i: Item) { i.rag == Amber }

  function One(i: Item): real { 1.0 }

  const FIGURES: Figures<Item, Theme> := Figures(ThemeOf, IsRed, IsAmber, ProjectCount, One)

  // ------------------------------------------------------------------ the pass

  /** A share, or nothing of an empty whole. */
  function Ratio(part: real, whole: real): real {
    if whole > 0.0 then part / whole else 0.0
  }

  function UtilizationPct(inputs: seq<Head>): real {
    Ratio(Sum(inputs, Billed), Sum(Keep(inputs, IsBillable), Available))
  }

  function TargetUtilPct(inputs: seq<Head>): real {
    Ratio(Sum(Keep(inputs, IsBillable), Target), Sum(Keep(inputs, IsBillable), Fte))
  }

  predicate Counted(r: Triage, heads: seq<Head>) {
    && r.resourceCount == |heads|
    && r.benchCount == Count(heads, OnBench) && r.severelyOverAllocatedCount == Count(heads, SeverelyOver)
    && r.redCount == Count(heads, HasRag(Some(Red))) && r.amberCount == Count(heads, HasRag(Some(Amber)))
    && r.optimalCount == Count(heads, HasRag(None))
    && r.clusters == Clustered(AtRiskItems(heads), FIGURES, THEME_ORDER)
  }

  predicate Tallied(r: Triage, inputs: seq<Head>) {
    Counted(r, Keep(inputs, IsBillable)) && r.utilizationPct == UtilizationPct(inputs) && r.targetUtilPct == TargetUtilPct(inputs)
  }

  method BuildResourceTriage(inputs: seq<Head>) returns (r: Triage)
    ensures Tallied(r, inputs)
  {
    r := CountHeads(Keep(inputs, IsBillable), UtilizationPct(inputs), TargetUtilPct(inputs));
  }

  method CountHeads(billable: seq<Head>, utilizationPct: real, targetUtilPct: real) returns (r: Triage)
    ensures Counted(r, billable) && r.utilizationPct == utilizationPct && r.targetUtilPct == targetUtilPct
  {
    var benchCount, severe, redCount, amberCount, optimalCount := 0, 0, 0, 0, 0;
    var atRisk: seq<Item> := [];
    for i := 0 to |billable|
      invariant benchCount == CountTo(billable, i, OnBench) && severe == CountTo(billable, i, SeverelyOver)
      invariant redCount == CountTo(billable, i, HasRag(Some(Red))) && amberCount == CountTo(billable, i, HasRag(Some(Amber)))
      invariant optimalCount == CountTo(billable, i, HasRag(None))
      invariant atRisk == PickTo(billable, i, AtRisk, ItemOf)
    {
      var h := billable[i];
      if h.row.projectCount == 0 { benchCount := benchCount + 1; }
      if h.row.utilizationPct > OVER_ALLOCATION_THRESHOLD { severe := severe + 1; }
      var rag := ResourceHealthRag(h);
      if rag == None {
        optimalCount := optimalCount + 1;
        continue;
      }
      if rag == Some(Red) { redCount := redCount + 1; } else { amberCount := amberCount + 1; }
      atRisk := atRisk + [Item(h, ClassifyResourceTheme(h, rag.value), rag.value)];
    }
    r := Triage(|billable|, utilizationPct, targetUtilPct, benchCount, severe, redCount, amberCount, optimalCount,
                Clustered(atRisk, FIGURES, THEME_ORDER));
  }

  /** The headline never disagrees with the capacity cockpit on the same rows. */
  lemma MatchesCockpit(inputs: seq<Head>)
    ensures Capacity.BlendedSummary(Mapped(inputs, RowOf)).utilizationPct == UtilizationPct(inputs)
    ensures Capacity.BlendedSummary(Mapped(inputs, RowOf)).targetUtilPct == TargetUtilPct(inputs)
  {
    SameSummary(inputs);
    var heads := Keep(inputs, IsBillable);
  }

  lemma SameSummary(inputs: seq<Head>)
    ensures var heads := Keep(inputs, IsBillable);
            Capacity.BlendedSummary(Mapped(inputs, RowOf)) ==
            Capacity.SummaryOf(Sum(heads, Fte), Sum(heads, Available), Sum(inputs, Billed), Sum(heads, Target))
  {
    SameHours(inputs);
    SameTargets(inputs);
    var heads := Keep(inputs, IsBillable);
  }

  lemma SameHours(inputs: seq<Head>)
    ensures Sum(Mapped(inputs, RowOf), Capacity.Billed) == Sum(inputs, Billed)
    ensures Sum(Keep(Mapped(inputs, RowOf), Capacity.Billable), Capacity.Available) == Sum(Keep(inputs, IsBillable), Available)
  {
    SumOfMapped(inputs, RowOf, Capacity.Billed, Billed);
    SameSum(inputs, Capacity.Available, Available);
  }

  lemma SameTargets(inputs: seq<Head>)
    ensures Sum(Keep(Mapped(inputs, RowOf), Capacity.Billable), Capacity.Target) == Sum(Keep(inputs, IsBillable), Target)
  {
    forall h: Head ensures Capacity.Target(RowOf(h)) == Target(h) {
      SameTarget(h);
    }
    SameSum(inputs, Capacity.Target, Target);
  }

  lemma SameTarget(h: Head)
    ensures Capacity.Target(RowOf(h)) == Target(h)
  {
  }

  lemma SameSum(inputs: seq<Head>, f: Capacity.Row -> real, g: Head -> real)
    requires forall h: Head :: f(RowOf(h)) == g(h)
    ensures Sum(Keep(Mapped(inputs, RowOf), Capacity.Billable), f) == Sum(Keep(inputs, IsBillable), g)
  {
    KeepOfMapped(inputs, RowOf, Capacity.Billable, IsBillable);
    SumOfMapped(Keep(inputs, IsBillable), RowOf, f, g);
  }

  // ---------------------------------------------------------------- main results

  predicate Anything(h: Head) { true }

  /** What the headline counts, head by head. */
  lemma HeadlineReads(h: Head)
    ensures (IsBillable(h) <==> h.row.isBillableHead) && (OnBench(h) <==> h.row.projectCount == 0)
    ensures SeverelyOver(h) <==> h.row.utilizationPct > 1.1
    ensures HasRag(Some(Red))(h) <==> h.row.utilizationPct > 1.1 || h.row.overloaded
    ensures HasRag(Some(Amber))(h) <==> h.row.utilizationPct <= 1.1 && !h.row.overloaded && h.row.attainmentPct < 0.7
  {
  }

  /** Every billable head is red, amber or in the optimal band, and all severely
      over-allocated ones are red. */
  lemma HeadlineComplete(r: Triage, inputs: seq<Head>)
    requires Tallied(r, inputs)
    ensures r.redCount + r.amberCount + r.optimalCount == r.resourceCount
    ensures r.severelyOverAllocatedCount <= r.redCount
  {
    var heads := Keep(inputs, IsBillable);
    var n := |heads|;
    CountUnion(heads, n, HasRag(Some(Red)), HasRag(Some(Amber)), AtRisk);
    CountUnion(heads, n, AtRisk, HasRag(None), Anything);
    CountEvery(heads, n, Anything);
    CountMonotone(heads, n, SeverelyOver, HasRag(Some(Red)));
  }

  /** The two tiles agree: the clusters hold exactly the heads at risk, their red, amber
      and head counts add up to the headline, the most widely spread first. */
  lemma TilesAgree(r: Triage, inputs: seq<Head>)
    requires Tallied(r, inputs)
    ensures multiset(AllItems(r.clusters)) == multiset(AtRiskItems(Keep(inputs, IsBillable)))
    ensures Sum(r.clusters, RedOf) == r.redCount as real && Sum(r.clusters, AmberOf) == r.amberCount as real
    ensures Sum(r.clusters, SizeOf) == (r.redCount + r.amberCount) as real
    ensures SortedBy(r.clusters, WorstFirst)
  {
    var heads := Keep(inputs, IsBillable);
    var items := AtRiskItems(heads);
    ThemesListed();
    ClustersHoldAll(items, FIGURES, THEME_ORDER);
    ClustersReconcile(items, FIGURES, THEME_ORDER);
    CountPicked(heads, |heads|, AtRisk, ItemOf, IsRed, HasRag(Some(Red)));
    CountPicked(heads, |heads|, AtRisk, ItemOf, IsAmber, HasRag(Some(Amber)));
    KeepSplit(items, IsRed, IsAmber);
    WorstFirstIsOrder<Item, Theme>();
    SortedIsSorted(Present(items, FIGURES, THEME_ORDER), WorstFirst);
  }

  /** A cluster's project count is the number of distinct projects its heads work on. */
  lemma {:induction false} ProjectsExactly(items: seq<Item>, id: string)
    ensures id in Projects(items) <==> exists i :: 0 <= i < |items| && id in items[i].head.projectIds
  {
    if |items| > 0 {
      var front := items[..|items| - 1];
      ProjectsExactly(front, id);
      if id in Projects(front) {
        var i :| 0 <= i < |front| && id in front[i].head.projectIds;
        assert items[i] == front[i];
      }
      forall i | 0 <= i < |front| && id in items[i].head.projectIds ensures id in Projects(front) {
        assert front[i] == items[i];
      }
    }
  }

  /** The over-allocation themes hold red heads only, the under-utilisation themes amber
      ones only. */
  lemma ClusterColours(r: Triage, inputs: seq<Head>, c: Cluster<Theme, Item>)
    requires Tallied(r, inputs) && c in r.clusters
    ensures c.theme == SeniorArchitectOverallocation || c.theme == LeadPmContention ==> c.amberCount == 0
    ensures c.theme == JuniorAnalystUnderutilization || c.theme == BenchUnderutilization ==> c.redCount == 0
    ensures c.redCount + c.amberCount == |c.items|
  {
    var heads := Keep(inputs, IsBillable);
    ClustersExactly(AtRiskItems(heads), FIGURES, THEME_ORDER, c);
    KeepSplit(c.items, IsRed, IsAmber);
    forall i | 0 <= i < |c.items|
      ensures c.theme == SeniorArchitectOverallocation || c.theme == LeadPmContention ==> !IsAmber(c.items[i])
      ensures c.theme == JuniorAnalystUnderutilization || c.theme == BenchUnderutilization ==> !IsRed(c.items[i])
    {
      MemberColour(heads, c.theme, c.items[i]);
    }
    if c.theme == SeniorArchitectOverallocation || c.theme == LeadPmContention { KeepNone(c.items, IsAmber); }
    if c.theme == JuniorAnalystUnderutilization || c.theme == BenchUnderutilization { KeepNone(c.items, IsRed); }
  }

  /** One of the words occurs in the head's role name, or the name is just "pm". */
  ghost predicate HasRole(h: Head, keywords: seq<string>) {
    && h.roleName.Some? && h.roleName.value != ""
    && (h.roleName.value == "pm" || exists i :: 0 <= i < |keywords| && Occurs(h.roleName.value, keywords[i]))
  }

  /** A head is filed by its colour and under the first cause in the order of the themes
      that it shows. */
  lemma ClusterCauses(r: Triage, inputs: seq<Head>, c: Cluster<Theme, Item>, i: nat)
    requires Tallied(r, inputs) && c in r.clusters && i < |c.items|
    ensures var h := c.items[i].head;
            var over := h.row.utilizationPct > 1.1 || h.row.overloaded;
            var senior := HasRole(h, ["architect", "principal", "director", "vp ", "head of"]);
            var pm := HasRole(h, ["project manager", "program manager", "delivery manager", "engagement manager"]);
            var junior := HasRole(h, ["analyst", "associate", "junior", "coordinator"]);
            && (c.items[i].rag == Red <==> over) && (!over ==> h.row.attainmentPct < 0.7)
            && (c.theme == SeniorArchitectOverallocation <==> over && senior)
            && (c.theme == LeadPmContention <==> over && pm && !senior)
            && (c.theme == JuniorAnalystUnderutilization <==> !over && junior)
            && (c.theme == BenchUnderutilization <==> !over && h.row.projectCount == 0 && !junior)
  {
    var heads, h := Keep(inputs, IsBillable), c.items[i].head;
    ClustersExactly(AtRiskItems(heads), FIGURES, THEME_ORDER, c);
    KeepIn(AtRiskItems(heads), Has(ThemeOf, c.theme), c.items[i]);
    Picked(heads, |heads|, c.items[i]);
    RoleMatchesExactly(h.roleName, SENIOR_ROLE_KEYWORDS);
    RoleMatchesExactly(h.roleName, PM_ROLE_KEYWORDS);
    RoleMatchesExactly(h.roleName, JUNIOR_ROLE_KEYWORDS);
  }

  lemma MemberColour(heads: seq<Head>, theme: Theme, item: Item)
    requires item in Keep(AtRiskItems(heads), Has(ThemeOf, theme))
    ensures theme == SeniorArchitectOverallocation || theme == LeadPmContention ==> !IsAmber(item)
    ensures theme == JuniorAnalystUnderutilization || theme == BenchUnderutilization ==> !IsRed(item)
  {
    KeepIn(AtRiskItems(heads), Has(ThemeOf, theme), item);
    Picked(heads, |heads|, item);
  }

  lemma {:induction false} Picked(heads: seq<Head>, n: nat, item: Item)
    requires n <= |heads| && item in PickTo(heads, n, AtRisk, ItemOf)
    ensures item == ItemOf(item.head) && AtRisk(item.head)
  {
    var h := heads[n - 1];
    if !(AtRisk(h) && item == ItemOf(h)) { Picked(heads, n - 1, item); }
  }
}
