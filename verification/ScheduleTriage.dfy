/** The schedule triage (src/lib/schedule-triage.ts) on the slip and pace arithmetic of
    src/lib/calculations/schedule.ts: milestone counts beside clusters of the projects
    whose worst unfinished phase is not green. Times are milliseconds. */
module ScheduleTriage {
  import opened Lists
  import opened Clusters
  import opened Options

  datatype Theme =
    ThirdPartyDependency | UatSignoffLag | DeploymentResourceContention | ScopeExpansionSlippage | Other

  const THEME_ORDER: seq<Theme> :=
    [ThirdPartyDependency, UatSignoffLag, DeploymentResourceContention, ScopeExpansionSlippage, Other]

  const MS_PER_DAY := 86400000
  const WARN_DAYS := 5
  const CRIT_DAYS := 15
  const PHASE_KEYS: seq<string> := ["initiate", "design", "build", "test", "deploy", "sustain"]

  datatype Phase = Phase(
    phaseKey: string, plannedStart: Option<int>, plannedEnd: Option<int>, actualEnd: Option<int>,
    pctComplete: real, status: string)

  datatype Project = Project(
    id: string, name: string, phases: seq<Phase>, healthScope: string, healthRes: string,
    openDependencyRisk: bool, updatedAt: string)

  datatype Item = Item(id: string, name: string, theme: Theme, rag: Rag, worstSlipDays: nat, updatedAt: string)

  datatype Triage = Triage(
    projectCount: nat, activeMilestoneCount: nat, redMilestoneCount: nat, amberMilestoneCount: nat,
    onTrackMilestoneCount: nat, goLiveNext30: nat, goLiveNext60: nat, clusters: seq<Cluster<Theme, Item>>)

  // ------------------------------------------------------------- slip and pace

  datatype Severity = Unknown | OnTrack | Slip | Warning | Critical

  /** Whole days, halves rounded up. */
  function RoundDays(ms: int): int {
    (2 * ms + MS_PER_DAY) / (2 * MS_PER_DAY)
  }

  function SlipDays(p: Phase): Option<int> {
    if p.plannedEnd.None? || p.actualEnd.None? then None else Some(RoundDays(p.actualEnd.value - p.plannedEnd.value))
  }

  function SlipSeverity(p: Phase): Severity {
    match SlipDays(p)
    case None => Unknown
    case Some(days) => if days <= 0 then OnTrack else if days >= CRIT_DAYS then Critical else if days >= WARN_DAYS then Warning else Slip
  }

  datatype Pace = NoPace | Complete | NotStarted | PaceCritical | PaceWarning | OnPace

  function PhasePace(p: Phase, now: int): Pace {
    if p.plannedStart.None? || p.plannedEnd.None? then NoPace
    else
      var start, end := p.plannedStart.value, p.plannedEnd.value;
      if end <= start then NoPace
      else if p.status == "complete" then Complete
      else
        var elapsedPct := (now - start) as real / (end - start) as real * 100.0;
        if elapsedPct <= 0.0 then NotStarted
        else if elapsedPct > 75.0 && p.pctComplete < 50.0 then PaceCritical
        else if elapsedPct > 50.0 && p.pctComplete < 25.0 then PaceWarning
        else OnPace
  }

  datatype PhaseRag = PhaseGreen | PhaseAmber | PhaseRed

  function PhaseHealthRag(p: Phase, now: int): PhaseRag {
    if p.status == "delayed" then PhaseRed
    else if SlipSeverity(p) == Critical then PhaseRed
    else if SlipSeverity(p) == Warning || SlipSeverity(p) == Slip then PhaseAmber
    else if PhasePace(p, now) == PaceCritical then PhaseRed
    else if PhasePace(p, now) == PaceWarning then PhaseAmber
    else PhaseGreen
  }

  /** The slip is in whole days, halves rounded up. A slip of a day or more is never green; a slip decides before the pace
      does, so that a phase a few days late is amber however far behind it is. */
  lemma SlipDecides(p: Phase, now: int, days: int)
    requires SlipDays(p) == Some(days)
    ensures days > 0 ==> PhaseHealthRag(p, now) != PhaseGreen
    ensures p.status != "delayed" && 0 < days ==> (PhaseHealthRag(p, now) == PhaseRed <==> days >= 15)
    ensures (2 * days - 1) * 12 * 3600 * 1000 <= p.actualEnd.value - p.plannedEnd.value < (2 * days + 1) * 12 * 3600 * 1000
  {
  }

  /** Without a slip the pace decides: red beyond three quarters of the planned time
      with less than half done, amber beyond half with less than a quarter done. */
  lemma PaceDecides(p: Phase, now: int)
    requires p.status != "delayed" && p.status != "complete" && p.plannedStart.Some? && p.plannedEnd.Some?
    requires p.plannedStart.value < p.plannedEnd.value && (SlipDays(p).Some? ==> SlipDays(p).value <= 0)
    ensures var gone, planned := now - p.plannedStart.value, p.plannedEnd.value - p.plannedStart.value;
            PhaseHealthRag(p, now) ==
              if 4 * gone > 3 * planned && p.pctComplete < 50.0 then PhaseRed
              else if 2 * gone > planned && p.pctComplete < 25.0 then PhaseAmber
              else PhaseGreen
  {
    var gone, planned := now - p.plannedStart.value, p.plannedEnd.value - p.plannedStart.value;
    Percent(gone as real, planned as real, 75.0);
    Percent(gone as real, planned as real, 50.0);
    Percent(gone as real, planned as real, 0.0);
  }

  lemma Percent(part: real, whole: real, pct: real)
    requires whole > 0.0
    ensures part / whole * 100.0 > pct <==> part * 100.0 > pct * whole
  {
    var share := part / whole;
    assert share * whole == part;
    if share * 100.0 > pct {
      assert share * 100.0 * whole > pct * whole;
    } else {
      assert share * 100.0 * whole <= pct * whole;
    }
  }

  // -------------------------------------------------------------------- themes

  function Find(phases: seq<Phase>, key: string, i: nat): (r: Option<Phase>)
    requires i <= |phases|
    ensures r.Some? ==> r.value in phases && r.value.phaseKey == key
    decreases |phases| - i
  {
    if i == |phases| then None
    else if phases[i].phaseKey == key then Some(phases[i])
    else Find(phases, key, i + 1)
  }

  predicate Slipped(phase: Option<Phase>) {
    phase.Some? && (SlipSeverity(phase.value) == Critical || SlipSeverity(phase.value) == Warning)
  }

  function ClassifyScheduleTheme(p: Project): Theme {
    if p.openDependencyRisk then ThirdPartyDependency
    else if Slipped(Find(p.phases, "test", 0)) then UatSignoffLag
    else if p.healthRes == "Amber" && Slipped(Find(p.phases, "deploy", 0)) then DeploymentResourceContention
    else if p.healthScope == "Red" then ScopeExpansionSlippage
    else Other
  }

  lemma ThemesListed()
    ensures Distinct(THEME_ORDER) && forall theme: Theme :: theme in THEME_ORDER
  {
    forall theme: Theme ensures theme in THEME_ORDER {
      match theme
      case ThirdPartyDependency => assert THEME_ORDER[0] == theme;
      case UatSignoffLag => assert THEME_ORDER[1] == theme;
      case DeploymentResourceContention => assert THEME_ORDER[2] == theme;
      case ScopeExpansionSlippage => assert THEME_ORDER[3] == theme;
      case Other => assert THEME_ORDER[4] == theme;
    }
  }

  // ------------------------------------------------------- one project's figures

  function Rank(r: PhaseRag): nat {
    match r
    case PhaseGreen => 0
    case PhaseAmber => 1
    case PhaseRed => 2
  }

  predicate Active(p: Phase) { p.status != "complete" }

  function Coloured(now: int, r: PhaseRag): Phase -> bool {
    (p: Phase) => Active(p) && PhaseHealthRag(p, now) == r
  }

  /** An unfinished go-live whose planned end is within the next `days` days. */
  function GoesLive(now: int, days: nat): Phase -> bool {
    (p: Phase) => Active(p) && p.phaseKey == "deploy" && p.plannedEnd.Some? && 0 <= p.plannedEnd.value - now <= days * MS_PER_DAY
  }

  /** The worst colour of the unfinished phases. */
  function WorstTo(phases: seq<Phase>, n: nat, now: int): PhaseRag
    requires n <= |phases|
  {
    if n == 0 then PhaseGreen
    else
      var worst := WorstTo(phases, n - 1, now);
      var rag := PhaseHealthRag(phases[n - 1], now);
      if Active(phases[n - 1]) && Rank(rag) > Rank(worst) then rag else worst
  }

  function Worst(p: Project, now: int): PhaseRag {
    WorstTo(p.phases, |p.phases|, now)
  }

  /** It is the maximum: no unfinished phase is worse, and unless it is green one of
      them has it. */
  lemma {:induction false} WorstIsMaximum(phases: seq<Phase>, n: nat, now: int)
    requires n <= |phases|
    ensures forall i :: 0 <= i < n && Active(phases[i]) ==> Rank(PhaseHealthRag(phases[i], now)) <= Rank(WorstTo(phases, n, now))
    ensures WorstTo(phases, n, now) == PhaseGreen
            || exists i :: 0 <= i < n && Active(phases[i]) && PhaseHealthRag(phases[i], now) == WorstTo(phases, n, now)
  {
    if n > 0 { WorstIsMaximum(phases, n - 1, now); }
  }

  /** The largest slip over the six canonical phases, each by its first row. */
  function WorstSlipTo(phases: seq<Phase>, k: nat): nat
    requires k <= |PHASE_KEYS|
  {
    if k == 0 then 0
    else
      var worst := WorstSlipTo(phases, k - 1);
      var phase := Find(phases, PHASE_KEYS[k - 1], 0);
      if phase.Some? && SlipDays(phase.value).Some? && SlipDays(phase.value).value > worst then SlipDays(phase.value).value else worst
  }

  method WorstSlipDays(phases: seq<Phase>) returns (worst: nat)
    ensures worst == WorstSlipTo(phases, |PHASE_KEYS|)
  {
    worst := 0;
    for k := 0 to |PHASE_KEYS|
      invariant worst == WorstSlipTo(phases, k)
    {
      var phase := Find(phases, PHASE_KEYS[k], 0);
      if phase.None? { continue; }
      var slip := SlipDays(phase.value);
      if slip.Some? && slip.value > worst { worst := slip.value; }
    }
  }

  // ------------------------------------------------------------ the whole pass

  function AtRisk(now: int): Project -> bool {
    (p: Project) => Worst(p, now) != PhaseGreen
  }

  function WithWorst(now: int, r: PhaseRag): Project -> bool {
    (p: Project) => Worst(p, now) == r
  }

  function ItemOf(now: int): Project -> Item {
    (p: Project) => Item(p.id, p.name, ClassifyScheduleTheme(p), if Worst(p, now) == PhaseRed then Red else Amber,
                         WorstSlipTo(p.phases, |PHASE_KEYS|), p.updatedAt)
  }

  function AtRiskItems(inputs: seq<Project>, now: int): seq<Item> {
    Pick(inputs, AtRisk(now), ItemOf(now))
  }

  /** How many of a project's phases are of a kind. */
  function In(kind: Phase -> bool): Project -> nat {
    (p: Project) => Count(p.phases, kind)
  }

  function ThemeOf(i: Item): Theme { i.theme }

  predicate IsRed(i: Item) { i.rag == Red }

  predicate IsAmber(i: Item) { i.rag == Amber }

  function Size(items: seq<Item>): nat { |items| }

  function Days(i: Item): real { i.worstSlipDays as real }

  const FIGURES: Figures<Item, Theme> := Figures(ThemeOf, IsRed, IsAmber, Size, Days)

  predicate Tallied(r: Triage, inputs: seq<Project>, now: int) {
    && r.projectCount == |inputs|
    && r.activeMilestoneCount == Add(inputs, In(Active))
    && r.redMilestoneCount == Add(inputs, In(Coloured(now, PhaseRed)))
    && r.amberMilestoneCount == Add(inputs, In(Coloured(now, PhaseAmber)))
    && r.onTrackMilestoneCount == Add(inputs, In(Coloured(now, PhaseGreen)))
    && r.goLiveNext30 == Add(inputs, In(GoesLive(now, 30)))
    && r.goLiveNext60 == Add(inputs, In(GoesLive(now, 60)))
    && r.clusters == Clustered(AtRiskItems(inputs, now), FIGURES, THEME_ORDER)
  }

  /** One project's phases: how many there are of each kind, and the worst colour. */
  datatype Scan = Scan(active: nat, red: nat, amber: nat, onTrack: nat, next30: nat, next60: nat, worst: PhaseRag)

  predicate Scanned(s: Scan, phases: seq<Phase>, n: nat, now: int)
    requires n <= |phases|
  {
    && s.active == CountTo(phases, n, Active)
    && s.red == CountTo(phases, n, Coloured(now, PhaseRed))
    && s.amber == CountTo(phases, n, Coloured(now, PhaseAmber))
    && s.onTrack == CountTo(phases, n, Coloured(now, PhaseGreen))
    && s.next30 == CountTo(phases, n, GoesLive(now, 30))
    && s.next60 == CountTo(phases, n, GoesLive(now, 60))
    && s.worst == WorstTo(phases, n, now)
  }

  method ScanPhases(phases: seq<Phase>, now: int) returns (s: Scan)
    ensures Scanned(s, phases, |phases|, now)
  {
    s := Scan(0, 0, 0, 0, 0, 0, PhaseGreen);
    for j := 0 to |phases|
      invariant Scanned(s, phases, j, now)
    {
      var phase := phases[j];
      if phase.status == "complete" { continue; }
      s := s.(active := s.active + 1);
      var rag := PhaseHealthRag(phase, now);
      match rag {
        case PhaseRed => s := s.(red := s.red + 1);
        case PhaseAmber => s := s.(amber := s.amber + 1);
        case PhaseGreen => s := s.(onTrack := s.onTrack + 1);
      }
      if Rank(rag) > Rank(s.worst) { s := s.(worst := rag); }
      if phase.phaseKey == "deploy" && phase.plannedEnd.Some? {
        var left := phase.plannedEnd.value - now;
        if left >= 0 && left <= 60 * MS_PER_DAY { s := s.(next60 := s.next60 + 1); }
        if left >= 0 && left <= 30 * MS_PER_DAY { s := s.(next30 := s.next30 + 1); }
      }
    }
  }

  method AtRiskItem(p: Project, worst: PhaseRag, now: int) returns (item: Item)
    requires worst == Worst(p, now)
    ensures item == ItemOf(now)(p)
  {
    var worstSlipDays := WorstSlipDays(p.phases);
    item := Item(p.id, p.name, ClassifyScheduleTheme(p), if worst == PhaseRed then Red else Amber, worstSlipDays, p.updatedAt);
  }

  method BuildScheduleTriage(inputs: seq<Project>, now: int) returns (r: Triage)
    ensures Tallied(r, inputs, now)
  {
    var active, red, amber, onTrack, next30, next60 := 0, 0, 0, 0, 0, 0;
    var atRisk: seq<Item> := [];
    for i := 0 to |inputs|
      invariant active == AddTo(inputs, i, In(Active))
      invariant red == AddTo(inputs, i, In(Coloured(now, PhaseRed)))
      invariant amber == AddTo(inputs, i, In(Coloured(now, PhaseAmber)))
      invariant onTrack == AddTo(inputs, i, In(Coloured(now, PhaseGreen)))
      invariant next30 == AddTo(inputs, i, In(GoesLive(now, 30)))
      invariant next60 == AddTo(inputs, i, In(GoesLive(now, 60)))
      invariant atRisk == PickTo(inputs, i, AtRisk(now), ItemOf(now))
    {
      var p := inputs[i];
      var scan := ScanPhases(p.phases, now);
      active, red, amber, onTrack := active + scan.active, red + scan.red, amber + scan.amber, onTrack + scan.onTrack;
      next30, next60 := next30 + scan.next30, next60 + scan.next60;
      if scan.worst == PhaseGreen { continue; }
      var item := AtRiskItem(p, scan.worst, now);
      atRisk := atRisk + [item];
    }
    r := Triage(|inputs|, active, red, amber, onTrack, next30, next60, Clustered(atRisk, FIGURES, THEME_ORDER));
  }

  // ----------------------------------------------------------------- main results

  /** What the headline counts, phase by phase. */
  lemma HeadlineReads(p: Phase, now: int, days: nat)
    ensures Active(p) <==> p.status != "complete"
    ensures forall r :: Coloured(now, r)(p) <==> p.status != "complete" && PhaseHealthRag(p, now) == r
    ensures GoesLive(now, days)(p) <==>
            && p.status != "complete" && p.phaseKey == "deploy" && p.plannedEnd.Some?
            && now <= p.plannedEnd.value <= now + days * 24 * 3600 * 1000
  {
  }

  /** Every unfinished milestone has one colour, and the 30-day go-lives are among the
      60-day ones. */
  lemma MilestonesAddUp(r: Triage, inputs: seq<Project>, now: int)
    requires Tallied(r, inputs, now)
    ensures r.redMilestoneCount + r.amberMilestoneCount + r.onTrackMilestoneCount == r.activeMilestoneCount
    ensures r.goLiveNext30 <= r.goLiveNext60
  {
    var red, amber, green := Coloured(now, PhaseRed), Coloured(now, PhaseAmber), Coloured(now, PhaseGreen);
    forall i | 0 <= i < |inputs|
      ensures In(Active)(inputs[i]) == In(red)(inputs[i]) + In(amber)(inputs[i]) + In(green)(inputs[i])
      ensures In(GoesLive(now, 30))(inputs[i]) <= In(GoesLive(now, 60))(inputs[i])
    {
      ColoursSplit(inputs[i].phases, |inputs[i].phases|, now);
      CountMonotone(inputs[i].phases, |inputs[i].phases|, GoesLive(now, 30), GoesLive(now, 60));
    }
    AddThree(inputs, |inputs|, In(red), In(amber), In(green), In(Active));
    AddMonotone(inputs, |inputs|, In(GoesLive(now, 30)), In(GoesLive(now, 60)));
  }

  lemma {:induction false} ColoursSplit(phases: seq<Phase>, n: nat, now: int)
    requires n <= |phases|
    ensures CountTo(phases, n, Active) == CountTo(phases, n, Coloured(now, PhaseRed))
            + CountTo(phases, n, Coloured(now, PhaseAmber)) + CountTo(phases, n, Coloured(now, PhaseGreen))
  {
    if n > 0 { ColoursSplit(phases, n - 1, now); }
  }

  /** A project is at risk if and only if one of its unfinished phases is not green,
      and red if and only if one of them is red. */
  lemma AtRiskExactly(p: Project, now: int)
    ensures AtRisk(now)(p) <==> In(Coloured(now, PhaseRed))(p) + In(Coloured(now, PhaseAmber))(p) > 0
    ensures ItemOf(now)(p).rag == Red <==> In(Coloured(now, PhaseRed))(p) > 0
  {
    WorstIsMaximum(p.phases, |p.phases|, now);
    CountPositive(p.phases, |p.phases|, Coloured(now, PhaseRed));
    CountPositive(p.phases, |p.phases|, Coloured(now, PhaseAmber));
  }

  /** The clusters hold exactly the projects at risk, and their figures add up. */
  lemma ClustersAddUp(r: Triage, inputs: seq<Project>, now: int)
    requires Tallied(r, inputs, now)
    ensures multiset(AllItems(r.clusters)) == multiset(AtRiskItems(inputs, now))
    ensures Sum(r.clusters, RedOf) == Count(inputs, WithWorst(now, PhaseRed)) as real
    ensures Sum(r.clusters, AmberOf) == Count(inputs, WithWorst(now, PhaseAmber)) as real
    ensures Sum(r.clusters, SizeOf) == Count(inputs, AtRisk(now)) as real
    ensures Sum(r.clusters, WeightOf) == Sum(AtRiskItems(inputs, now), Days)
    ensures SortedBy(r.clusters, WorstFirst)
  {
    var items := AtRiskItems(inputs, now);
    ThemesListed();
    ClustersHoldAll(items, FIGURES, THEME_ORDER);
    ClustersReconcile(items, FIGURES, THEME_ORDER);
    CountPicked(inputs, |inputs|, AtRisk(now), ItemOf(now), IsRed, WithWorst(now, PhaseRed));
    CountPicked(inputs, |inputs|, AtRisk(now), ItemOf(now), IsAmber, WithWorst(now, PhaseAmber));
    PickedSize(inputs, |inputs|, AtRisk(now), ItemOf(now));
    WorstFirstIsOrder<Item, Theme>();
    SortedIsSorted(Present(items, FIGURES, THEME_ORDER), WorstFirst);
  }

  /** A sign-off or deployment cluster is one of real slips: at least the warning number
      of days for each project in it. */
  lemma SlipClusters(r: Triage, inputs: seq<Project>, now: int, c: Cluster<Theme, Item>)
    requires Tallied(r, inputs, now) && c in r.clusters
    requires c.theme == UatSignoffLag || c.theme == DeploymentResourceContention
    ensures c.projectCount > 0 && c.weight >= 5.0 * c.projectCount as real
  {
    ClustersExactly(AtRiskItems(inputs, now), FIGURES, THEME_ORDER, c);
    MembersSlip(inputs, now, c.theme);
  }

  /** The phase is there and has slipped by the warning number of days or more. */
  ghost predicate Late(p: Project, key: string) {
    exists i :: FirstAt(p.phases, key, i) && SlipDays(p.phases[i]).Some? && SlipDays(p.phases[i]).value >= 5
  }

  /** The first row with the key. */
  predicate FirstAt(phases: seq<Phase>, key: string, i: int) {
    0 <= i < |phases| && phases[i].phaseKey == key && forall j :: 0 <= j < i ==> phases[j].phaseKey != key
  }

  lemma {:induction false} FindExactly(phases: seq<Phase>, key: string, i: nat)
    requires i <= |phases| && forall j :: 0 <= j < i ==> phases[j].phaseKey != key
    ensures Find(phases, key, i).None? ==> forall j :: !FirstAt(phases, key, j)
    ensures forall j :: FirstAt(phases, key, j) ==> Find(phases, key, i) == Some(phases[j])
    ensures Find(phases, key, i).Some? ==> exists j :: FirstAt(phases, key, j)
    decreases |phases| - i
  {
    if i < |phases| {
      if phases[i].phaseKey == key {
        assert FirstAt(phases, key, i);
      } else {
        FindExactly(phases, key, i + 1);
      }
    }
  }

  lemma SlippedExactly(p: Project, key: string)
    ensures Slipped(Find(p.phases, key, 0)) <==> Late(p, key)
  {
    FindExactly(p.phases, key, 0);
    if Slipped(Find(p.phases, key, 0)) {
      var j :| FirstAt(p.phases, key, j);
      assert Find(p.phases, key, 0) == Some(p.phases[j]);
    }
  }

  /** A project is filed under the first cause in the order of the themes that it shows,
      so every project in a cluster shows its cause and none of those before. */
  lemma ClusterCauses(r: Triage, inputs: seq<Project>, now: int, c: Cluster<Theme, Item>, i: nat) returns (p: Project)
    requires Tallied(r, inputs, now) && c in r.clusters && i < |c.items|
    ensures c.items[i].worstSlipDays == WorstSlipTo(p.phases, |PHASE_KEYS|) && Days(c.items[i]) == c.items[i].worstSlipDays as real
    ensures c.items[i].name == p.name && c.items[i].updatedAt == p.updatedAt
    ensures c.items[i].id == p.id && Worst(p, now) != PhaseGreen && (c.items[i].rag == Red <==> Worst(p, now) == PhaseRed)
    ensures var dependency, uat, deploy := p.openDependencyRisk, Late(p, "test"), p.healthRes == "Amber" && Late(p, "deploy");
            && (c.theme == ThirdPartyDependency <==> dependency)
            && (c.theme == UatSignoffLag <==> uat && !dependency)
            && (c.theme == DeploymentResourceContention <==> deploy && !uat && !dependency)
            && (c.theme == ScopeExpansionSlippage <==> p.healthScope == "Red" && !deploy && !uat && !dependency)
  {
    ClustersExactly(AtRiskItems(inputs, now), FIGURES, THEME_ORDER, c);
    KeepIn(AtRiskItems(inputs, now), Has(ThemeOf, c.theme), c.items[i]);
    p := PickedFrom(inputs, |inputs|, AtRisk(now), ItemOf(now), c.items[i]);
    SlippedExactly(p, "test");
    SlippedExactly(p, "deploy");
  }

  lemma MembersSlip(inputs: seq<Project>, now: int, theme: Theme)
    requires theme == UatSignoffLag || theme == DeploymentResourceContention
    ensures var members := Keep(AtRiskItems(inputs, now), Has(ThemeOf, theme));
            Sum(members, Days) >= WARN_DAYS as real * |members| as real
  {
    var members := Keep(AtRiskItems(inputs, now), Has(ThemeOf, theme));
    forall i | 0 <= i < |members| ensures Days(members[i]) >= WARN_DAYS as real {
      MemberSlip(inputs, now, theme, members[i]);
    }
    SumAtLeast(members, Days, WARN_DAYS as real);
  }

  lemma MemberSlip(inputs: seq<Project>, now: int, theme: Theme, item: Item)
    requires item in Keep(AtRiskItems(inputs, now), Has(ThemeOf, theme))
    requires theme == UatSignoffLag || theme == DeploymentResourceContention
    ensures item.worstSlipDays >= WARN_DAYS
  {
    KeepIn(AtRiskItems(inputs, now), Has(ThemeOf, theme), item);
    var p := PickedFrom(inputs, |inputs|, AtRisk(now), ItemOf(now), item);
    WorstSlipIsMaximum(p.phases, |PHASE_KEYS|);
    assert PHASE_KEYS[3] == "test" && PHASE_KEYS[4] == "deploy";
    assert SlipOf(p.phases, if theme == UatSignoffLag then 3 else 4).Some?;
  }

  /** The tiles never disagree: there is a red milestone if and only if some cluster
      counts a red project, and a milestone off track if and only if there is a cluster
      with a project in it. */
  lemma TilesAgree(r: Triage, inputs: seq<Project>, now: int)
    requires Tallied(r, inputs, now)
    ensures r.redMilestoneCount > 0 <==> Sum(r.clusters, RedOf) > 0.0
    ensures r.redMilestoneCount + r.amberMilestoneCount > 0 <==> Sum(r.clusters, SizeOf) > 0.0
  {
    ClustersAddUp(r, inputs, now);
    forall p: Project ensures WithWorst(now, PhaseRed)(p) <==> In(Coloured(now, PhaseRed))(p) > 0
      ensures AtRisk(now)(p) <==> In(Coloured(now, PhaseRed))(p) > 0 || In(Coloured(now, PhaseAmber))(p) > 0
    {
      AtRiskExactly(p, now);
    }
    AddPositive(inputs, |inputs|, In(Coloured(now, PhaseRed)));
    AddPositive(inputs, |inputs|, In(Coloured(now, PhaseAmber)));
    CountPositive(inputs, |inputs|, WithWorst(now, PhaseRed));
    CountPositive(inputs, |inputs|, AtRisk(now));
  }

  /** The slip shown for a project is the worst of its canonical phases, never negative. */
  lemma {:induction false} WorstSlipIsMaximum(phases: seq<Phase>, k: nat)
    requires k <= |PHASE_KEYS|
    ensures forall i :: 0 <= i < k && SlipOf(phases, i).Some? ==> SlipOf(phases, i).value <= WorstSlipTo(phases, k)
    ensures WorstSlipTo(phases, k) == 0 || exists i :: 0 <= i < k && SlipOf(phases, i) == Some(WorstSlipTo(phases, k))
  {
    if k > 0 {
      WorstSlipIsMaximum(phases, k - 1);
      var before := WorstSlipTo(phases, k - 1);
      if WorstSlipTo(phases, k) != before {
        assert SlipOf(phases, k - 1) == Some(WorstSlipTo(phases, k));
      } else if before != 0 {
        var i :| 0 <= i < k - 1 && SlipOf(phases, i) == Some(before);
        assert i < k;
      }
    }
  }

  /** In terms of the phases: no first row of a canonical phase has slipped further than
      what is shown, and one has slipped as far unless none has slipped. */
  lemma WorstSlipExactly(phases: seq<Phase>)
    ensures forall key, j :: IsCanonical(key) && FirstAt(phases, key, j) && SlipDays(phases[j]).Some? ==>
              SlipDays(phases[j]).value <= WorstSlipTo(phases, |PHASE_KEYS|)
    ensures WorstSlipTo(phases, |PHASE_KEYS|) == 0 || exists key, j ::
              IsCanonical(key) && FirstAt(phases, key, j) && SlipDays(phases[j]) == Some(WorstSlipTo(phases, |PHASE_KEYS|))
  {
    WorstSlipIsMaximum(phases, |PHASE_KEYS|);
    forall key, j | IsCanonical(key) && FirstAt(phases, key, j) && SlipDays(phases[j]).Some?
      ensures SlipDays(phases[j]).value <= WorstSlipTo(phases, |PHASE_KEYS|)
    {
      FindExactly(phases, key, 0);
      var i := PlaceOf(key);
      assert SlipOf(phases, i) == SlipDays(phases[j]);
    }
    if WorstSlipTo(phases, |PHASE_KEYS|) != 0 {
      var i :| 0 <= i < |PHASE_KEYS| && SlipOf(phases, i) == Some(WorstSlipTo(phases, |PHASE_KEYS|));
      FindExactly(phases, PHASE_KEYS[i], 0);
      var j :| FirstAt(phases, PHASE_KEYS[i], j);
      assert IsCanonical(PHASE_KEYS[i]);
    }
  }

  predicate IsCanonical(key: string) {
    key == "initiate" || key == "design" || key == "build" || key == "test" || key == "deploy" || key == "sustain"
  }

  lemma PlaceOf(key: string) returns (i: nat)
    requires IsCanonical(key)
    ensures i < |PHASE_KEYS| && PHASE_KEYS[i] == key
  {
    i := if key == "initiate" then 0 else if key == "design" then 1 else if key == "build" then 2
         else if key == "test" then 3 else if key == "deploy" then 4 else 5;
  }

  function SlipOf(phases: seq<Phase>, i: nat): Option<int>
    requires i < |PHASE_KEYS|
  {
    var phase := Find(phases, PHASE_KEYS[i], 0);
    if phase.None? then None else SlipDays(phase.value)
  }
}
