/** The executive triage (src/lib/executive-triage.ts): which projects make the short
    list, in which order, and which RAID item heads a project's card. */
module ExecutiveTriage {
  import opened Lists
  import opened Options

  datatype Driver = GovernanceRed | OverBudget | BehindSchedule

  /** `governance` is the code of the project's audit health. */
  datatype Project = Project(
    id: string, governance: char, bac: real, actualsCost: real, healthCost: string, healthSched: string)

  datatype Flagged = Flagged(project: Project, drivers: seq<Driver>)

  const TRIAGE_LIMIT := 6
  const DRIVER_POINTS := 1000000.0

  function DriversOf(p: Project): (r: seq<Driver>)
    ensures |r| <= 3
  {
    (if p.governance == 'R' then [GovernanceRed] else [])
    + (if p.healthCost == "Red" then [OverBudget] else [])
    + (if p.healthSched == "Red" then [BehindSchedule] else [])
  }

  /** Each driver is there exactly when its signal is red, and once. */
  lemma DriversExactly(p: Project)
    ensures GovernanceRed in DriversOf(p) <==> p.governance == 'R'
    ensures OverBudget in DriversOf(p) <==> p.healthCost == "Red"
    ensures BehindSchedule in DriversOf(p) <==> p.healthSched == "Red"
    ensures Distinct(DriversOf(p))
    ensures IsFlagged(p) <==> p.governance == 'R' || p.healthCost == "Red" || p.healthSched == "Red"
  {
  }

  predicate IsFlagged(p: Project) {
    DriversOf(p) != []
  }

  function Flag(p: Project): Flagged {
    Flagged(p, DriversOf(p))
  }

  function Variance(f: Flagged): real {
    f.project.actualsCost - f.project.bac
  }

  function Score(f: Flagged): real {
    |f.drivers| as real * DRIVER_POINTS + Variance(f)
  }

  predicate ByScore(a: Flagged, b: Flagged) {
    Score(a) >= Score(b)
  }

  function Ranking(projects: seq<Project>): seq<Flagged> {
    Sorted(Pick(projects, IsFlagged, Flag), ByScore)
  }

  function FirstOf<T>(s: seq<T>, n: nat): seq<T> {
    if |s| <= n then s else s[..n]
  }

  method SelectTriageProjects(projects: seq<Project>) returns (r: seq<Flagged>)
    ensures r == FirstOf(Ranking(projects), TRIAGE_LIMIT)
    ensures |r| == if |Ranking(projects)| <= 6 then |Ranking(projects)| else 6
  {
    var flagged: seq<Flagged> := [];
    for i := 0 to |projects|
      invariant flagged == PickTo(projects, i, IsFlagged, Flag)
    {
      var p := projects[i];
      var drivers: seq<Driver> := [];
      if p.governance == 'R' { drivers := drivers + [GovernanceRed]; }
      if p.healthCost == "Red" { drivers := drivers + [OverBudget]; }
      if p.healthSched == "Red" { drivers := drivers + [BehindSchedule]; }
      assert drivers == DriversOf(p);
      if |drivers| > 0 { flagged := flagged + [Flagged(p, drivers)]; }
    }
    flagged := Sorted(flagged, ByScore);
    r := FirstOf(flagged, TRIAGE_LIMIT);
  }

  /** At most six are kept, and no flagged project that is left out scores more than
      one that is kept. */
  lemma TopProjects(projects: seq<Project>, i: nat, j: nat)
    requires i < |FirstOf(Ranking(projects), TRIAGE_LIMIT)| <= j < |Ranking(projects)|
    ensures |FirstOf(Ranking(projects), TRIAGE_LIMIT)| == TRIAGE_LIMIT
    ensures Score(FirstOf(Ranking(projects), TRIAGE_LIMIT)[i]) >= Score(Ranking(projects)[j])
  {
    SortedIsSorted(Pick(projects, IsFlagged, Flag), ByScore);
  }

  /** The ranking holds every flagged project once and no other. */
  lemma RankingIsAll(projects: seq<Project>)
    ensures multiset(Ranking(projects)) == multiset(Mapped(Keep(projects, IsFlagged), Flag))
    ensures SortedBy(Ranking(projects), ByScore)
    ensures forall a, b :: ByScore(a, b) <==>
              |a.drivers| as real * 1000000.0 + (a.project.actualsCost - a.project.bac) >=
              |b.drivers| as real * 1000000.0 + (b.project.actualsCost - b.project.bac)
  {
    PickIs(projects, IsFlagged, Flag);
    SortedIsSorted(Pick(projects, IsFlagged, Flag), ByScore);
  }

  // ----------------------------------------------------- the order that is meant

  /** More drivers first, then the larger variance. */
  predicate Intended(a: Flagged, b: Flagged) {
    if |a.drivers| != |b.drivers| then |a.drivers| > |b.drivers| else Variance(a) >= Variance(b)
  }

  /** With more drivers, and not outweighed by the other's variance. */
  predicate Clear(a: Flagged, b: Flagged) {
    |a.drivers| > |b.drivers| ==> Variance(b) - Variance(a) < 1000000.0 * (|a.drivers| - |b.drivers|) as real
  }

  /** On two projects the score gives the order that is meant, in both directions, if
      and only if neither variance outweighs the drivers. */
  lemma ScoreAgreesExactly(a: Flagged, b: Flagged)
    ensures (ByScore(a, b) == Intended(a, b) && ByScore(b, a) == Intended(b, a)) <==> Clear(a, b) && Clear(b, a)
  {
    var points := DRIVER_POINTS * (|a.drivers| - |b.drivers|) as real;
    assert Score(a) - Score(b) == points + (Variance(a) - Variance(b));
    assert DRIVER_POINTS * (|b.drivers| - |a.drivers|) as real == -points;
  }

  /** So the ranking is the one that is meant when that holds of all flagged projects,
      for instance when their variances span less than a million. */
  lemma RankingAsIntended(projects: seq<Project>)
    requires forall a, b :: a in Pick(projects, IsFlagged, Flag) && b in Pick(projects, IsFlagged, Flag) ==> Clear(a, b)
    ensures Ranking(projects) == Sorted(Pick(projects, IsFlagged, Flag), Intended)
  {
    var flagged := Pick(projects, IsFlagged, Flag);
    forall a, b | a in flagged && b in flagged ensures ByScore(a, b) == Intended(a, b) {
      ScoreAgreesExactly(a, b);
    }
    SortedSame(flagged, ByScore, Intended);
  }

  lemma SmallSpreadIsClear(a: Flagged, b: Flagged)
    requires -DRIVER_POINTS < Variance(a) - Variance(b) < DRIVER_POINTS
    ensures Clear(a, b)
  {
    if |a.drivers| > |b.drivers| {
      assert DRIVER_POINTS * (|a.drivers| - |b.drivers|) as real >= DRIVER_POINTS;
    }
  }

  /** And it is not when a variance outweighs the drivers: the project with fewer
      drivers then comes first. */
  lemma OutweighedComesFirst(projects: seq<Project>, i: nat, j: nat)
    requires i < |Ranking(projects)| && j < |Ranking(projects)|
    requires var a, b := Ranking(projects)[i], Ranking(projects)[j];
             |a.drivers| > |b.drivers| && Variance(b) - Variance(a) > DRIVER_POINTS * (|a.drivers| - |b.drivers|) as real
    ensures j < i && !SortedBy(Ranking(projects), Intended)
  {
    RankingIsAll(projects);
    var a, b := Ranking(projects)[i], Ranking(projects)[j];
    assert Score(b) - Score(a) == (Variance(b) - Variance(a)) - DRIVER_POINTS * (|a.drivers| - |b.drivers|) as real;
    assert !ByScore(a, b);
    assert !Intended(b, a);
  }

  // ---------------------------------------------------------- the leading RAID item

  datatype Severity = Low | Med | High | Critical

  function SeverityRank(s: Severity): nat {
    match s
    case Low => 1
    case Med => 2
    case High => 3
    case Critical => 4
  }

  datatype RaidItem = RaidItem(description: string, severity: Severity, escalate: bool, targetDate: Option<string>)

  predicate Dated(r: RaidItem) {
    r.targetDate.Some? && r.targetDate.value != ""
  }

  /** Escalated first, then the more severe, then the earlier date, dated before undated;
      `dateLe` is the comparison of dates as text. */
  function Leads(dateLe: (string, string) -> bool): (RaidItem, RaidItem) -> bool {
    (a: RaidItem, b: RaidItem) =>
      if a.escalate != b.escalate then a.escalate
      else if a.severity != b.severity then SeverityRank(a.severity) > SeverityRank(b.severity)
      else if Dated(a) && Dated(b) then dateLe(a.targetDate.value, b.targetDate.value)
      else Dated(a) || !Dated(b)
  }

  lemma LeadsTransitive(dateLe: (string, string) -> bool, a: RaidItem, b: RaidItem, c: RaidItem)
    requires TotalPreorder(dateLe) && Leads(dateLe)(a, b) && Leads(dateLe)(b, c)
    ensures Leads(dateLe)(a, c)
  {
    if Dated(a) && Dated(b) && Dated(c) {
      assert dateLe(a.targetDate.value, b.targetDate.value) && dateLe(b.targetDate.value, c.targetDate.value)
             ==> dateLe(a.targetDate.value, c.targetDate.value);
    }
  }

  lemma LeadsTotal(dateLe: (string, string) -> bool, a: RaidItem, b: RaidItem)
    requires TotalPreorder(dateLe)
    ensures Leads(dateLe)(a, b) || Leads(dateLe)(b, a)
  {
    assert SeverityRank(a.severity) == SeverityRank(b.severity) <==> a.severity == b.severity;
    if Dated(a) && Dated(b) {
      assert dateLe(a.targetDate.value, b.targetDate.value) || dateLe(b.targetDate.value, a.targetDate.value);
    }
  }

  /** The comparison is a total preorder whenever that of the dates is. */
  lemma LeadsIsOrder(dateLe: (string, string) -> bool)
    requires TotalPreorder(dateLe)
    ensures TotalPreorder(Leads(dateLe))
  {
    forall a: RaidItem, b: RaidItem ensures Leads(dateLe)(a, b) || Leads(dateLe)(b, a) {
      LeadsTotal(dateLe, a, b);
    }
    forall a: RaidItem, b: RaidItem, c: RaidItem | Leads(dateLe)(a, b) && Leads(dateLe)(b, c)
      ensures Leads(dateLe)(a, c)
    {
      LeadsTransitive(dateLe, a, b, c);
    }
  }

  function TopRaid(items: seq<RaidItem>, dateLe: (string, string) -> bool): Option<RaidItem> {
    var sorted := Sorted(items, Leads(dateLe));
    if |sorted| == 0 then None else Some(sorted[0])
  }

  /** The item that heads the card is one of the project's, none of its items comes
      before it, and of those that tie with it, it is the first that was listed. */
  lemma TopRaidLeads(items: seq<RaidItem>, dateLe: (string, string) -> bool)
    requires TotalPreorder(dateLe)
    ensures TopRaid(items, dateLe).None? <==> items == []
    ensures TopRaid(items, dateLe).Some? ==>
              var top := TopRaid(items, dateLe).value;
              && top in items && (forall item :: item in items ==> Leads(dateLe)(top, item))
              && |Keep(items, Ties(top, Leads(dateLe)))| > 0 && Keep(items, Ties(top, Leads(dateLe)))[0] == top
  {
    var le := Leads(dateLe);
    LeadsIsOrder(dateLe);
    var sorted := Sorted(items, le);
    SortedIsSorted(items, le);
    assert |multiset(sorted)| == |sorted| && |multiset(items)| == |items|;
    if |sorted| > 0 {
      var top := sorted[0];
      SortedMembers(items, le, top);
      forall item | item in items ensures le(top, item) {
        SortedMembers(items, le, item);
        var i :| 0 <= i < |sorted| && sorted[i] == item;
      }
      SortedIsStable(items, top, le);
      KeepFirst(sorted, Ties(top, le));
    }
  }

  predicate NoMoreSevere(a: Severity, b: Severity) {
    b == Critical || (b == High && a != Critical) || (b == Med && (a == Med || a == Low)) || (b == Low && a == Low)
  }

  lemma RankIs(a: Severity, b: Severity)
    ensures SeverityRank(a) <= SeverityRank(b) <==> NoMoreSevere(a, b)
  {
    match a case Low => case Med => case High => case Critical =>
  }

  /** That is: it is escalated if any item is, as severe as any so escalated, and dated
      no later than any as severe. */
  lemma TopRaidIs(items: seq<RaidItem>, dateLe: (string, string) -> bool, item: RaidItem)
    requires TotalPreorder(dateLe) && item in items
    ensures TopRaid(items, dateLe).Some?
    ensures var top := TopRaid(items, dateLe).value;
            && (item.escalate ==> top.escalate)
            && (item.escalate == top.escalate ==> NoMoreSevere(item.severity, top.severity))
            && (item.escalate == top.escalate && item.severity == top.severity && Dated(item) ==>
                  Dated(top) && dateLe(top.targetDate.value, item.targetDate.value))
  {
    TopRaidLeads(items, dateLe);
    RankIs(item.severity, TopRaid(items, dateLe).value.severity);
    assert Leads(dateLe)(TopRaid(items, dateLe).value, item);
  }

  lemma {:induction false} KeepFirst<T>(s: seq<T>, p: T -> bool)
    requires |s| > 0 && p(s[0])
    ensures |Keep(s, p)| > 0 && Keep(s, p)[0] == s[0]
  {
    if |s| > 1 { KeepFirst(s[..|s| - 1], p); }
  }
}
