/** The fuzzy matcher of the command palette (src/lib/fuzzy-match.ts). */
module FuzzyMatch {
  import opened Lists
  import opened Options
  import opened Strings

  // ----------------------------------------------------------------- searching

  /** The first place at or after `from` that holds `ch`. */
  function FindChar(t: string, ch: char, from: nat): (r: Option<nat>)
    ensures r.Some? ==> from <= r.value < |t| && t[r.value] == ch && forall i :: from <= i < r.value ==> t[i] != ch
    ensures r.None? ==> forall i :: from <= i < |t| ==> t[i] != ch
    decreases |t| - from
  {
    if from >= |t| then None else if t[from] == ch then Some(from) else FindChar(t, ch, from + 1)
  }

  /** Places in `t` for the letters of `q`, in order. */
  predicate Embeds(q: string, t: string, at: seq<nat>) {
    && |at| == |q|
    && (forall i :: 0 <= i < |at| ==> at[i] < |t| && t[at[i]] == q[i])
    && (forall i, j :: 0 <= i < j < |at| ==> at[i] < at[j])
  }

  /** The scan: each letter at the first place after the one before it. */
  function GreedyAt(q: string, t: string, n: nat): (r: Option<seq<nat>>)
    requires n <= |q|
    ensures r.Some? ==> |r.value| == n
  {
    if n == 0 then Some([])
    else
      match GreedyAt(q, t, n - 1)
      case None => None
      case Some(at) =>
        match FindChar(t, q[n - 1], NextPlace(at))
        case None => None
        case Some(place) => Some(at + [place])
  }

  function NextPlace(at: seq<nat>): nat {
    if |at| == 0 then 0 else at[|at| - 1] + 1
  }

  lemma EmbedsNext(q: string, t: string, n: nat, at: seq<nat>, place: nat)
    requires n < |q| && Embeds(q[..n], t, at) && NextPlace(at) <= place < |t| && t[place] == q[n]
    ensures Embeds(q[..n + 1], t, at + [place])
  {
    assert forall i :: 0 <= i < n ==> q[..n][i] == q[..n + 1][i];
  }

  /** What the scan finds is an embedding. */
  lemma {:induction false} GreedyEmbeds(q: string, t: string, n: nat)
    requires n <= |q| && GreedyAt(q, t, n).Some?
    ensures Embeds(q[..n], t, GreedyAt(q, t, n).value)
  {
    if n > 0 {
      GreedyEmbeds(q, t, n - 1);
      var at := GreedyAt(q, t, n - 1).value;
      EmbedsNext(q, t, n - 1, at, GreedyAt(q, t, n).value[n - 1]);
    }
  }

  lemma FrontEmbeds(q: string, t: string, n: nat, at: seq<nat>)
    requires 0 < n <= |q| && Embeds(q[..n], t, at)
    ensures Embeds(q[..n - 1], t, at[..n - 1]) && at[n - 1] < |t| && t[at[n - 1]] == q[n - 1]
    ensures n > 1 ==> at[n - 2] < at[n - 1]
  {
    assert forall i :: 0 <= i < n - 1 ==> q[..n - 1][i] == q[..n][i];
  }

  /** The scan stays ahead: if there is any embedding it finds one, and no letter of
      any embedding lies before the place the scan has for it. */
  lemma {:induction false} GreedyIsEarliest(q: string, t: string, n: nat, at: seq<nat>)
    requires n <= |q| && Embeds(q[..n], t, at)
    ensures GreedyAt(q, t, n).Some?
    ensures forall i :: 0 <= i < n ==> GreedyAt(q, t, n).value[i] <= at[i]
  {
    if n > 0 {
      FrontEmbeds(q, t, n, at);
      GreedyIsEarliest(q, t, n - 1, at[..n - 1]);
      var g := GreedyAt(q, t, n - 1).value;
      assert NextPlace(g) <= at[n - 1] by {
        if n > 1 { assert g[n - 2] <= at[..n - 1][n - 2] == at[n - 2]; }
      }
    }
  }

  // ------------------------------------------------------------------- scoring

  /** The score of a folded query against a folded target. */
  function Score(q: string, t: string): Option<real> {
    if |q| == 0 then Some(0.0)
    else
      match IndexOf(t, q, 0)
      case Some(i) => Some(1000.0 - i as real)
      case None =>
        match GreedyAt(q, t, |q|)
        case None => None
        case Some(at) => Some(500.0 - (at[|q| - 1] as real - at[0] as real) - at[0] as real * 0.1)
  }

  method FuzzyScore(query: string, target: string, fold: Folding) returns (r: Option<real>)
    ensures r == Score(fold.lower(fold.trim(query)), fold.lower(target))
  {
    var q := fold.lower(fold.trim(query));
    if |q| == 0 { return Some(0.0); }
    var t := fold.lower(target);
    var idx := IndexOf(t, q, 0);
    if idx.Some? { return Some(1000.0 - idx.value as real); }
    var ti: nat := 0;
    var firstMatch: int, lastMatch: int := -1, -1;
    for qi := 0 to |q|
      invariant GreedyAt(q, t, qi).Some?
      invariant ti == NextPlace(GreedyAt(q, t, qi).value)
      invariant qi == 0 ==> firstMatch == -1
      invariant qi > 0 ==> firstMatch == GreedyAt(q, t, qi).value[0] && lastMatch == GreedyAt(q, t, qi).value[qi - 1]
    {
      var found := FindChar(t, q[qi], ti);
      if found.None? {
        Stuck(q, t, qi + 1, |q|);
        return None;
      }
      if firstMatch == -1 { firstMatch := found.value; }
      lastMatch := found.value;
      ti := found.value + 1;
    }
    var spread := lastMatch - firstMatch;
    r := Some(500.0 - spread as real - firstMatch as real * 0.1);
  }

  /** A scan that fails does not recover. */
  lemma {:induction false} Stuck(q: string, t: string, n: nat, m: nat)
    requires n <= m <= |q| && GreedyAt(q, t, n).None?
    ensures GreedyAt(q, t, m).None?
  {
    if n < m { Stuck(q, t, n, m - 1); }
  }

  /** An occurrence is an embedding without gaps. */
  lemma OccurrenceEmbeds(q: string, t: string, i: nat) returns (at: seq<nat>)
    requires OccursAt(t, q, i)
    ensures Embeds(q, t, at)
  {
    at := seq(|q|, k requires 0 <= k < |q| => i + k);
    forall k | 0 <= k < |q| ensures t[at[k]] == q[k] { assert t[i..i + |q|][k] == t[i + k]; }
  }

  lemma FullPrefix(q: string)
    ensures q[..|q|] == q
  {
  }

  /** There is no score exactly when the query is not a subsequence of the target. */
  lemma NoScoreExactly(q: string, t: string)
    ensures Score(q, t).None? <==> !exists at :: Embeds(q, t, at)
  {
    FullPrefix(q);
    if Score(q, t).None? {
      forall at ensures !Embeds(q, t, at) {
        if Embeds(q, t, at) { GreedyIsEarliest(q, t, |q|, at); }
      }
    } else if |q| == 0 {
      assert Embeds(q, t, []);
    } else if IndexOf(t, q, 0).Some? {
      var at := OccurrenceEmbeds(q, t, IndexOf(t, q, 0).value);
    } else {
      GreedyEmbeds(q, t, |q|);
    }
  }

  /** The empty query scores nothing; an occurrence scores 1000 less the place where it
      first starts. */
  lemma OccurrenceScore(q: string, t: string, i: nat)
    ensures Score("", t) == Some(0.0)
    ensures |q| > 0 && OccursAt(t, q, i) && (forall j: nat :: j < i ==> !OccursAt(t, q, j)) ==> Score(q, t) == Some(1000.0 - i as real)
  {
  }

  /** So of two targets in which the query occurs, the one with the earlier occurrence
      scores higher. */
  lemma EarlierScoresHigher(q: string, t: string, i: nat, u: string)
    requires |q| > 0 && OccursAt(t, q, i) && (exists j: nat :: OccursAt(u, q, j)) && forall j: nat :: j <= i ==> !OccursAt(u, q, j)
    ensures Score(q, t).Some? && Score(q, u).Some? && Score(q, t).value > Score(q, u).value
  {
    assert IndexOf(t, q, 0).Some? && IndexOf(t, q, 0).value <= i;
    assert IndexOf(u, q, 0).Some?;
  }

  /** A match by letters only. */
  predicate Scattered(q: string, t: string) {
    |q| > 0 && IndexOf(t, q, 0).None? && Score(q, t).Some?
  }

  /** Its score is 500 less the distance from the earliest start to the earliest end of
      any embedding, and less a tenth of that start. */
  lemma ScatteredScore(q: string, t: string, at: seq<nat>)
    requires Scattered(q, t) && Embeds(q, t, at)
    ensures var g := GreedyAt(q, t, |q|).value;
            && Embeds(q, t, g)
            && g[0] <= at[0] && g[|q| - 1] <= at[|q| - 1]
            && Score(q, t) == Some(500.0 - (g[|q| - 1] as real - g[0] as real) - g[0] as real * 0.1)
  {
    FullPrefix(q);
    GreedyEmbeds(q, t, |q|);
    GreedyIsEarliest(q, t, |q|, at);
  }

  /** An embedding spans at least its own length, and exactly that only without gaps. */
  lemma {:induction false} Spans(q: string, t: string, at: seq<nat>, n: nat)
    requires Embeds(q, t, at) && 0 < n <= |q|
    ensures at[n - 1] - at[0] >= n - 1
    ensures at[n - 1] - at[0] == n - 1 ==> forall i :: 0 <= i < n ==> at[i] == at[0] + i
  {
    if n > 1 { Spans(q, t, at, n - 1); }
  }

  /** Letters with a gap somewhere: the score stays below 500 by the length of the query. */
  lemma ScatteredBelow(q: string, t: string)
    requires Scattered(q, t)
    ensures Score(q, t).value <= 500.0 - |q| as real
  {
    FullPrefix(q);
    GreedyEmbeds(q, t, |q|);
    var g := GreedyAt(q, t, |q|).value;
    Spans(q, t, g, |q|);
    if g[|q| - 1] - g[0] == |q| - 1 {
      assert g[0] + |q| <= |t|;
      assert t[g[0]..g[0] + |q|] == q by {
        assert forall i :: 0 <= i < |q| ==> t[g[0]..g[0] + |q|][i] == t[g[i]] == q[i];
      }
      assert OccursAt(t, q, g[0]);
    }
  }

  /** Every occurrence outscores every scattered match, wherever it is found, in targets
      of fewer than 500 letters and twice the length of the query; 500 is enough. */
  lemma OccurrenceOutscores(q: string, t: string, u: string)
    requires |q| > 0 && IndexOf(t, q, 0).Some? && Scattered(q, u)
    requires |t| < 500 + 2 * |q|
    ensures Score(q, t).value > Score(q, u).value
  {
    ScatteredBelow(q, u);
    assert IndexOf(t, q, 0).value + |q| <= |t|;
  }

  /** The tightest scattered match: one foreign letter after the first one. */
  function Parted(q: string, sep: char): string
    requires |q| >= 2
  {
    [q[0], sep] + q[1..]
  }

  lemma PartedScore(q: string, sep: char)
    requires |q| >= 2 && sep !in q
    ensures Scattered(q, Parted(q, sep)) && Score(q, Parted(q, sep)).value == 500.0 - |q| as real
  {
    var u := Parted(q, sep);
    var at := seq(|q|, k requires 0 <= k < |q| => if k == 0 then 0 else k + 1);
    assert Embeds(q, u, at);
    assert IndexOf(u, q, 0).None? by {
      assert u[0..|q|][1] == sep && u[1..1 + |q|][0] == sep;
      assert !OccursAt(u, q, 0) && !OccursAt(u, q, 1);
    }
    FullPrefix(q);
    GreedyIsEarliest(q, u, |q|, at);
    ScatteredBelow(q, u);
    assert GreedyAt(q, u, |q|).value[0] == 0;
  }

  /** So an occurrence outscores every scattered match of the same query if and only if
      it starts before place 500 plus the length of the query. */
  lemma OutscoresExactly(q: string, t: string, sep: char)
    requires |q| >= 2 && sep !in q && IndexOf(t, q, 0).Some?
    ensures (forall u :: Scattered(q, u) ==> Score(q, t).value > Score(q, u).value)
            <==> IndexOf(t, q, 0).value < 500 + |q|
  {
    PartedScore(q, sep);
    forall u | Scattered(q, u) ensures Score(q, u).value <= 500.0 - |q| as real {
      ScatteredBelow(q, u);
    }
  }

  // ----------------------------------------------------------------- filtering

  datatype Scored<T> = Scored(item: T, score: Option<real>)

  predicate Matched<T>(s: Scored<T>) { s.score.Some? }

  predicate Better<T>(a: Scored<T>, b: Scored<T>) {
    Points(a) >= Points(b)
  }

  function Points<T>(s: Scored<T>): real {
    if s.score.Some? then s.score.value else 0.0
  }

  function ScoreWith<T>(query: string, getText: T -> string, fold: Folding): T -> Scored<T> {
    (item: T) => Scored(item, Score(fold.lower(fold.trim(query)), fold.lower(getText(item))))
  }

  function ItemOf<T>(s: Scored<T>): T { s.item }

  function FirstOf<T>(s: seq<T>, n: nat): seq<T> {
    if |s| <= n then s else s[..n]
  }

  function Ranking<T>(query: string, items: seq<T>, getText: T -> string, fold: Folding): seq<Scored<T>> {
    Sorted(Keep(Mapped(items, ScoreWith(query, getText, fold)), Matched), Better)
  }

  function FuzzyFilter<T>(query: string, items: seq<T>, getText: T -> string, fold: Folding, limit: nat): seq<T> {
    if |fold.trim(query)| == 0 then FirstOf(items, limit)
    else Mapped(FirstOf(Ranking(query, items, getText, fold), limit), ItemOf)
  }

  /** A query of nothing but blanks shows the first items as they are. */
  lemma EmptyQuery<T(!new)>(query: string, items: seq<T>, getText: T -> string, fold: Folding, limit: nat)
    requires fold.trim(query) == ""
    ensures var shown := FuzzyFilter(query, items, getText, fold, limit);
            shown <= items && |shown| == if |items| <= limit then |items| else limit
  {
  }

  lemma BetterIsOrder<T(!new)>()
    ensures TotalPreorder<Scored<T>>(Better)
  {
  }

  /** The ranking is all matches and nothing else, best first, ties in the given order. */
  lemma RankingIsAll<T(!new)>(query: string, items: seq<T>, getText: T -> string, fold: Folding, z: Scored<T>)
    ensures var ranking, scored := Ranking(query, items, getText, fold), Mapped(items, ScoreWith(query, getText, fold));
            && SortedBy(ranking, Better)
            && multiset(ranking) == multiset(Keep(scored, Matched))
            && Keep(ranking, Ties(z, Better)) == Keep(Keep(scored, Matched), Ties(z, Better))
            && (z in ranking ==> z.score.Some? && z.item in items
                                 && z.score == Score(fold.lower(fold.trim(query)), fold.lower(getText(z.item))))
  {
    var scored := Mapped(items, ScoreWith(query, getText, fold));
    BetterIsOrder<T>();
    SortedIsSorted(Keep(scored, Matched), Better);
    SortedIsStable(Keep(scored, Matched), z, Better);
    SortedMembers(Keep(scored, Matched), Better, z);
    KeepIn(scored, Matched, z);
  }

  /** A true top-k: as many results as there are matches up to the limit, and no match
      left out scores more than one that is shown. */
  lemma TopMatches<T(!new)>(query: string, items: seq<T>, getText: T -> string, fold: Folding, limit: nat, i: nat, j: nat)
    requires |fold.trim(query)| > 0
    ensures var shown, ranking := FuzzyFilter(query, items, getText, fold, limit), Ranking(query, items, getText, fold);
            && |shown| == (if |ranking| <= limit then |ranking| else limit)
            && (i < |shown| ==> shown[i] == ranking[i].item)
            && (i < |shown| <= j < |ranking| ==> Points(ranking[i]) >= Points(ranking[j]))
  {
    BetterIsOrder<T>();
    SortedIsSorted(Keep(Mapped(items, ScoreWith(query, getText, fold)), Matched), Better);
  }
}
