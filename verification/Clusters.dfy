/** Thematic clusters of the at-risk items, worst first: the second tile of the
    financial, commercial, schedule, resource and RAID triage
    (src/lib/financial-triage.ts:217-236 and its four siblings). */
module Clusters {
  import opened Lists

  datatype Rag = Red | Amber

  /** `weight` is what breaks a tie between clusters that touch as many projects:
      dollars, days or items. */
  datatype Cluster<K, T> = Cluster(
    theme: K, projectCount: nat, redCount: nat, amberCount: nat, weight: real, items: seq<T>)

  /** How one of the modules reads its items. */
  datatype Figures<!T, K> = Figures(
    theme: T -> K, isRed: T -> bool, isAmber: T -> bool, projects: seq<T> -> nat, weigh: T -> real)

  function ClusterOf<T, K(==)>(items: seq<T>, fig: Figures<T, K>, k: K): Cluster<K, T> {
    var members := Keep(items, Has(fig.theme, k));
    Cluster(k, fig.projects(members), |Keep(members, fig.isRed)|, |Keep(members, fig.isAmber)|,
            Sum(members, fig.weigh), members)
  }

  function ForTheme<T, K(==)>(items: seq<T>, fig: Figures<T, K>): K -> Cluster<K, T> {
    k => ClusterOf(items, fig, k)
  }

  predicate NotEmpty<T, K>(c: Cluster<K, T>) {
    |c.items| > 0
  }

  /** More projects touched come first, then the greater weight. */
  predicate WorstFirst<T, K>(a: Cluster<K, T>, b: Cluster<K, T>) {
    if a.projectCount != b.projectCount then a.projectCount > b.projectCount else a.weight >= b.weight
  }

  function Present<T, K(==)>(items: seq<T>, fig: Figures<T, K>, order: seq<K>): seq<Cluster<K, T>> {
    Keep(Mapped(order, ForTheme(items, fig)), NotEmpty)
  }

  function Clustered<T, K(==)>(items: seq<T>, fig: Figures<T, K>, order: seq<K>): seq<Cluster<K, T>> {
    Sorted(Present(items, fig, order), WorstFirst)
  }

  lemma WorstFirstIsOrder<T(!new), K(!new)>()
    ensures TotalPreorder<Cluster<K, T>>(WorstFirst)
  {
  }

  // --------------------------------------------------------------- conservation

  function AllItems<T, K>(cs: seq<Cluster<K, T>>): seq<T> {
    if |cs| == 0 then [] else AllItems(cs[..|cs| - 1]) + cs[|cs| - 1].items
  }

  lemma {:induction false} ItemsOfThemes<T, K>(items: seq<T>, fig: Figures<T, K>, order: seq<K>)
    ensures AllItems(Mapped(order, ForTheme(items, fig))) == Grouped(items, fig.theme, order)
  {
    if |order| > 0 {
      ItemsOfThemes(items, fig, order[..|order| - 1]);
      assert Mapped(order, ForTheme(items, fig))[..|order| - 1] == Mapped(order[..|order| - 1], ForTheme(items, fig));
    }
  }

  lemma {:induction false} ItemsOfPresent<T, K>(cs: seq<Cluster<K, T>>)
    ensures AllItems(Keep(cs, NotEmpty)) == AllItems(cs)
  {
    if |cs| > 0 {
      ItemsOfPresent(cs[..|cs| - 1]);
      SnocOf(Keep(cs[..|cs| - 1], NotEmpty), cs[|cs| - 1]);
    }
  }

  lemma {:induction false} ItemsOfInsert<T, K>(cs: seq<Cluster<K, T>>, c: Cluster<K, T>)
    ensures multiset(AllItems(Insert(cs, c, WorstFirst))) == multiset(AllItems(cs)) + multiset(c.items)
  {
    SnocOf(cs, c);
    if |cs| > 0 && !WorstFirst(cs[|cs| - 1], c) {
      ItemsOfInsert(cs[..|cs| - 1], c);
      SnocOf(Insert(cs[..|cs| - 1], c, WorstFirst), cs[|cs| - 1]);
    }
  }

  lemma {:induction false} ItemsOfSorted<T, K>(cs: seq<Cluster<K, T>>)
    ensures multiset(AllItems(Sorted(cs, WorstFirst))) == multiset(AllItems(cs))
  {
    if |cs| > 0 {
      ItemsOfSorted(cs[..|cs| - 1]);
      ItemsOfInsert(Sorted(cs[..|cs| - 1], WorstFirst), cs[|cs| - 1]);
    }
  }

  /** The clusters hold the at-risk items: none is lost, none appears twice. */
  lemma ClustersHoldAll<T, K>(items: seq<T>, fig: Figures<T, K>, order: seq<K>)
    requires Distinct(order) && forall i :: 0 <= i < |items| ==> fig.theme(items[i]) in order
    ensures multiset(AllItems(Clustered(items, fig, order))) == multiset(items)
  {
    ItemsOfSorted(Present(items, fig, order));
    ItemsOfPresent(Mapped(order, ForTheme(items, fig)));
    ItemsOfThemes(items, fig, order);
    GroupedIsPermutation(items, fig.theme, order);
  }

  // -------------------------------------------------------- what a cluster says

  /** The figures of a cluster are those of its items. */
  predicate Sound<T, K>(c: Cluster<K, T>, fig: Figures<T, K>) {
    && c.projectCount == fig.projects(c.items)
    && c.redCount == |Keep(c.items, fig.isRed)|
    && c.amberCount == |Keep(c.items, fig.isAmber)|
    && c.weight == Sum(c.items, fig.weigh)
  }

  lemma {:induction false} PresentOnes<T(!new), K(!new)>(items: seq<T>, fig: Figures<T, K>, order: seq<K>, c: Cluster<K, T>)
    ensures c in Present(items, fig, order) <==> c.theme in order && c == ClusterOf(items, fig, c.theme) && NotEmpty(c)
  {
    var all := Mapped(order, ForTheme(items, fig));
    KeepIn(all, NotEmpty, c);
    if c in all {
      var i :| 0 <= i < |all| && all[i] == c;
      assert c == ClusterOf(items, fig, order[i]);
    }
    if c.theme in order && c == ClusterOf(items, fig, c.theme) {
      var i :| 0 <= i < |order| && order[i] == c.theme;
      assert all[i] == c;
    }
  }

  /** There is a cluster for a theme if and only if some item has that theme; it holds
      those items in their order, and its figures are theirs. */
  lemma ClustersExactly<T(!new), K(!new)>(items: seq<T>, fig: Figures<T, K>, order: seq<K>, c: Cluster<K, T>)
    ensures c in Clustered(items, fig, order) <==>
            && c.theme in order && Sound(c, fig)
            && c.items == Keep(items, Has(fig.theme, c.theme)) && c.items != []
  {
    WorstFirstIsOrder<T, K>();
    SortedMembers(Present(items, fig, order), WorstFirst, c);
    PresentOnes(items, fig, order, c);
  }

  /** The clusters come worst first, and clusters that tie in the order of the themes. */
  lemma ClustersInOrder<T(!new), K(!new)>(items: seq<T>, fig: Figures<T, K>, order: seq<K>, z: Cluster<K, T>)
    ensures SortedBy(Clustered(items, fig, order), WorstFirst)
    ensures var cs := Clustered(items, fig, order);
            forall i, j :: 0 <= i < j < |cs| ==>
              cs[i].projectCount >= cs[j].projectCount
              && (cs[i].projectCount == cs[j].projectCount ==> cs[i].weight >= cs[j].weight)
    ensures Keep(Clustered(items, fig, order), Ties(z, WorstFirst)) == Keep(Present(items, fig, order), Ties(z, WorstFirst))
  {
    WorstFirstIsOrder<T, K>();
    SortedIsSorted(Present(items, fig, order), WorstFirst);
    SortedIsStable(Present(items, fig, order), z, WorstFirst);
  }

  // -------------------------------------------------------------- reconciliation

  function RedOf<T, K>(c: Cluster<K, T>): real { c.redCount as real }

  function AmberOf<T, K>(c: Cluster<K, T>): real { c.amberCount as real }

  function WeightOf<T, K>(c: Cluster<K, T>): real { c.weight }

  function SizeOf<T, K>(c: Cluster<K, T>): real { |c.items| as real }

  function If<T>(p: T -> bool): T -> real {
    x => if p(x) then 1.0 else 0.0
  }

  lemma {:induction false} CountIsSum<T>(s: seq<T>, p: T -> bool)
    ensures |Keep(s, p)| as real == Sum(s, If(p))
  {
    if |s| > 0 { CountIsSum(s[..|s| - 1], p); }
  }

  lemma {:induction false} SumOfClusters<T(!new), K(!new)>(cs: seq<Cluster<K, T>>, fig: Figures<T, K>)
    requires forall i :: 0 <= i < |cs| ==> Sound(cs[i], fig)
    ensures Sum(cs, RedOf) == |Keep(AllItems(cs), fig.isRed)| as real
    ensures Sum(cs, AmberOf) == |Keep(AllItems(cs), fig.isAmber)| as real
    ensures Sum(cs, WeightOf) == Sum(AllItems(cs), fig.weigh)
    ensures Sum(cs, SizeOf) == |AllItems(cs)| as real
  {
    if |cs| > 0 {
      var front, c := cs[..|cs| - 1], cs[|cs| - 1];
      SumOfClusters(front, fig);
      KeepAppend(AllItems(front), c.items, fig.isRed);
      KeepAppend(AllItems(front), c.items, fig.isAmber);
      SumAppend(AllItems(front), c.items, fig.weigh);
      assert Sound(c, fig);
    }
  }

  /** The figures of the clusters add up to those of all items. */
  predicate Reconciles<T, K(==)>(cs: seq<Cluster<K, T>>, items: seq<T>, fig: Figures<T, K>) {
    && Sum(cs, RedOf) == |Keep(items, fig.isRed)| as real
    && Sum(cs, AmberOf) == |Keep(items, fig.isAmber)| as real
    && Sum(cs, WeightOf) == Sum(items, fig.weigh)
    && Sum(cs, SizeOf) == |items| as real
  }

  lemma ClustersReconcile<T(!new), K(!new)>(items: seq<T>, fig: Figures<T, K>, order: seq<K>)
    requires Distinct(order) && forall i :: 0 <= i < |items| ==> fig.theme(items[i]) in order
    ensures Reconciles(Clustered(items, fig, order), items, fig)
  {
    var cs := Clustered(items, fig, order);
    forall i | 0 <= i < |cs| ensures Sound(cs[i], fig) {
      ClustersExactly(items, fig, order, cs[i]);
    }
    SumOfClusters(cs, fig);
    ClustersHoldAll(items, fig, order);
    SumOfPermutation(AllItems(cs), items, fig.weigh);
    SumOfPermutation(AllItems(cs), items, If(fig.isRed));
    SumOfPermutation(AllItems(cs), items, If(fig.isAmber));
    CountIsSum(AllItems(cs), fig.isRed);
    CountIsSum(AllItems(cs), fig.isAmber);
    CountIsSum(items, fig.isRed);
    CountIsSum(items, fig.isAmber);
    assert |multiset(AllItems(cs))| == |AllItems(cs)| && |multiset(items)| == |items|;
  }
}
