/** `getRecommendations`: keyword scoring of the lower-cased symptom text, a
    stable sort of the scores, the top three specialties (General Practice when
    nothing scored) and, for each, the first provider of that specialty. The
    keyword table and the explanation texts are fixture data and arrive as
    parameters; scores are exact reals. */
module Recommend {
  import opened Collections
  import opened Text
  import opened Domain
  import opened Sorting

  /** Each keyword with its specialties, most relevant first, in table order. */
  type KeywordTable = seq<(string, seq<string>)>

  /** The score dictionary: specialties in the order they were first scored,
      which is the order `Object.entries` lists string keys in. */
  type Scores = seq<(string, real)>

  const DefaultSpecialty: string := "General Practice"
  const MaxRanked: nat := 3

  datatype Recommendation = Recommendation(
    providerId: string,
    providerName: string,
    specialty: string,
    rating: real,
    confidence: real,
    rationale: string)

  /** Weight of the specialty at `index` in a keyword's list of `count`. */
  function Weight(count: nat, index: nat): (r: real)
    requires index < count
    ensures 0.0 < r <= 1.0
    ensures index == 0 ==> r == 1.0
  {
    (count - index) as real / count as real
  }

  /** Earlier specialties of one keyword weigh strictly more, and every weight lies in (0, 1]. */
  lemma WeightDecreases(count: nat, i: nat, j: nat)
    requires i < j < count
    ensures 0.0 < Weight(count, j) < Weight(count, i) <= 1.0
  {
    var c := count as real;
    assert Weight(count, i) - Weight(count, j) == (j - i) as real / c;
    assert (count - j) as real > 0.0;
  }

  ghost predicate Distinct(names: seq<string>)
  {
    forall i, j :: 0 <= i < j < |names| ==> names[i] != names[j]
  }

  function Names(scores: Scores): (r: seq<string>)
    ensures |r| == |scores| && forall i :: 0 <= i < |r| ==> r[i] == scores[i].0
  {
    seq(|scores|, i requires 0 <= i < |scores| => scores[i].0)
  }

  function Named(s: string): ((string, real)) -> bool
  {
    (e: (string, real)) => e.0 == s
  }

  ghost predicate DistinctKeys(scores: Scores)
  {
    Distinct(Names(scores))
  }

  /** `specialtyScores[s] || 0`: the score of the first entry named `s`, or 0. */
  function Lookup(scores: Scores, s: string): (r: real)
    ensures s !in Names(scores) ==> r == 0.0
    ensures s in Names(scores) ==>
      exists i :: 0 <= i < |scores| && scores[i] == (s, r) && forall j :: 0 <= j < i ==> scores[j].0 != s
  {
    match FirstIndex(scores, Named(s))
    case None => 0.0
    case Some(i) => scores[i].1
  }

  /** `specialtyScores[s] = (specialtyScores[s] || 0) + w`: the existing key
      is updated in place and a new key goes at the end. */
  function AddScore(scores: Scores, s: string, w: real): (r: Scores)
    ensures r != [] && |scores| <= |r| <= |scores| + 1
  {
    match FirstIndex(scores, Named(s))
    case None => scores + [(s, w)]
    case Some(i) => scores[i := (s, scores[i].1 + w)]
  }

  /** A known specialty keeps the key order; a new one is appended at the end. */
  lemma AddScoreShape(scores: Scores, s: string, w: real)
    ensures var r := AddScore(scores, s, w);
      && (s in Names(scores) ==> Names(r) == Names(scores))
      && (s !in Names(scores) ==> r == scores + [(s, w)] && Names(r) == Names(scores) + [s])
  {
    var r := AddScore(scores, s, w);
    match FirstIndex(scores, Named(s))
    case None =>
      assert s !in Names(scores);
      assert Names(r) == Names(scores) + [s];
    case Some(i) =>
      assert Names(r) == Names(scores);
  }

  /** Where the first entry named `t` is once an entry is appended. */
  lemma FirstNamedAppend(scores: Scores, e: (string, real), t: string)
    ensures FirstIndex(scores + [e], Named(t)) ==
      match FirstIndex(scores, Named(t))
      case Some(k) => Some(k)
      case None => if e.0 == t then Some(|scores|) else None
  {
    var r := scores + [e];
    assert forall j :: 0 <= j < |scores| ==> r[j] == scores[j];
    match FirstIndex(scores, Named(t)) {
      case Some(k) =>
        FirstIndexAt(r, Named(t), k);
      case None =>
        if e.0 == t {
          FirstIndexAt(r, Named(t), |scores|);
        } else {
          assert forall j :: 0 <= j < |r| ==> !Named(t)(r[j]);
        }
    }
  }

  /** Dictionaries with the same keys in the same order find `t` at the same place. */
  lemma FirstNamedSameKeys(scores: Scores, r: Scores, t: string)
    requires |r| == |scores| && forall j :: 0 <= j < |r| ==> r[j].0 == scores[j].0
    ensures FirstIndex(r, Named(t)) == FirstIndex(scores, Named(t))
  {
    assert forall j :: 0 <= j < |r| ==> (Named(t)(r[j]) <==> Named(t)(scores[j]));
    match FirstIndex(scores, Named(t)) {
      case None =>
      case Some(k) =>
        FirstIndexAt(r, Named(t), k);
    }
  }

  /** Adding to one key adds to its lookup and to no other. */
  lemma AddScoreLookup(scores: Scores, s: string, w: real, t: string)
    ensures Lookup(AddScore(scores, s, w), t) == Lookup(scores, t) + (if t == s then w else 0.0)
  {
    var r := AddScore(scores, s, w);
    match FirstIndex(scores, Named(s)) {
      case None =>
        FirstNamedAppend(scores, (s, w), t);
      case Some(i) =>
        FirstNamedSameKeys(scores, r, t);
        if t == s {
          assert FirstIndex(r, Named(t)) == Some(i);
        }
    }
  }

  /** Adding a score never repeats a key. */
  lemma AddScoreDistinct(scores: Scores, s: string, w: real)
    requires DistinctKeys(scores)
    ensures DistinctKeys(AddScore(scores, s, w))
  {
    AddScoreShape(scores, s, w);
  }

  /** With distinct keys, looking up an entry's key yields its score. */
  lemma LookupEntry(scores: Scores, i: nat)
    requires DistinctKeys(scores) && i < |scores|
    ensures Lookup(scores, scores[i].0) == scores[i].1
  {
    assert Names(scores)[i] == scores[i].0;
    match FirstIndex(scores, Named(scores[i].0))
    case Some(k) =>
      assert Names(scores)[k] == scores[k].0;
  }

  /** The inner loop after its first `j` specialties: at most `j` new keys. */
  function ScoreKeyword(scores: Scores, specialties: seq<string>, j: nat): (r: Scores)
    requires j <= |specialties|
    ensures |scores| <= |r| <= |scores| + j
    ensures j > 0 ==> r != []
  {
    if j == 0 then scores
    else AddScore(ScoreKeyword(scores, specialties, j - 1), specialties[j - 1], Weight(|specialties|, j - 1))
  }

  /** The keys already scored keep their order at the front. */
  lemma {:induction false} ScoreKeywordKeepsKeys(scores: Scores, specialties: seq<string>, j: nat)
    requires j <= |specialties|
    ensures Names(ScoreKeyword(scores, specialties, j))[..|scores|] == Names(scores)
  {
    if j == 0 {
      assert Names(scores)[..|scores|] == Names(scores);
    } else {
      ScoreKeywordKeepsKeys(scores, specialties, j - 1);
      AddScoreShape(ScoreKeyword(scores, specialties, j - 1), specialties[j - 1], Weight(|specialties|, j - 1));
      var prev := Names(ScoreKeyword(scores, specialties, j - 1));
      var r := Names(ScoreKeyword(scores, specialties, j));
      assert r[..|prev|] == prev;
      assert r[..|scores|] == prev[..|scores|];
    }
  }

  lemma {:induction false} ScoreKeywordDistinct(scores: Scores, specialties: seq<string>, j: nat)
    requires j <= |specialties| && DistinctKeys(scores)
    ensures DistinctKeys(ScoreKeyword(scores, specialties, j))
  {
    if j > 0 {
      ScoreKeywordDistinct(scores, specialties, j - 1);
      AddScoreDistinct(ScoreKeyword(scores, specialties, j - 1), specialties[j - 1], Weight(|specialties|, j - 1));
    }
  }

  /** Each key is an old one or one of the first `j` specialties. */
  lemma {:induction false} ScoreKeywordNames(scores: Scores, specialties: seq<string>, j: nat)
    requires j <= |specialties|
    ensures forall t :: t in Names(ScoreKeyword(scores, specialties, j)) ==> t in Names(scores) || t in specialties[..j]
  {
    if j > 0 {
      ScoreKeywordNames(scores, specialties, j - 1);
      AddScoreShape(ScoreKeyword(scores, specialties, j - 1), specialties[j - 1], Weight(|specialties|, j - 1));
      assert specialties[..j] == specialties[..j - 1] + [specialties[j - 1]];
    }
  }

  /** The outer loop after its first `k` keywords; `ScoreTableLookup`,
      `ScoreTableNames` and `ScoreTableShape` state what it holds. */
  function ScoreTable(text: string, table: KeywordTable, k: nat): Scores
    requires k <= |table|
  {
    if k == 0 then []
    else
      var prev := ScoreTable(text, table, k - 1);
      var specialties := table[k - 1].1;
      if Contains(text, table[k - 1].0) then ScoreKeyword(prev, specialties, |specialties|) else prev
  }

  /** Every scored specialty is listed under a keyword that occurs in the text. */
  lemma {:induction false} ScoreTableNames(text: string, table: KeywordTable, k: nat)
    requires k <= |table|
    ensures forall t :: t in Names(ScoreTable(text, table, k)) ==>
      exists m :: 0 <= m < k && Contains(text, table[m].0) && t in table[m].1
  {
    if k > 0 {
      ScoreTableNames(text, table, k - 1);
      var specialties := table[k - 1].1;
      if Contains(text, table[k - 1].0) {
        ScoreKeywordNames(ScoreTable(text, table, k - 1), specialties, |specialties|);
        assert specialties[..|specialties|] == specialties;
      }
    }
  }

  /** Reference meaning of a score: the sum, over the matched keywords, of the
      weights at which the specialty is listed. */
  ghost function KeywordShare(specialties: seq<string>, s: string, j: nat): real
    requires j <= |specialties|
  {
    if j == 0 then 0.0
    else KeywordShare(specialties, s, j - 1) + (if specialties[j - 1] == s then Weight(|specialties|, j - 1) else 0.0)
  }

  ghost function TotalScore(text: string, table: KeywordTable, k: nat, s: string): real
    requires k <= |table|
  {
    if k == 0 then 0.0
    else
      TotalScore(text, table, k - 1, s)
      + (if Contains(text, table[k - 1].0) then KeywordShare(table[k - 1].1, s, |table[k - 1].1|) else 0.0)
  }

  lemma {:induction false} ScoreKeywordLookup(scores: Scores, specialties: seq<string>, j: nat, s: string)
    requires j <= |specialties|
    ensures Lookup(ScoreKeyword(scores, specialties, j), s) == Lookup(scores, s) + KeywordShare(specialties, s, j)
  {
    if j > 0 {
      ScoreKeywordLookup(scores, specialties, j - 1, s);
      AddScoreLookup(ScoreKeyword(scores, specialties, j - 1), specialties[j - 1], Weight(|specialties|, j - 1), s);
    }
  }

  /** The dictionary holds, for every specialty, exactly its accumulated score. */
  lemma {:induction false} ScoreTableLookup(text: string, table: KeywordTable, k: nat, s: string)
    requires k <= |table|
    ensures Lookup(ScoreTable(text, table, k), s) == TotalScore(text, table, k, s)
  {
    if k > 0 {
      ScoreTableLookup(text, table, k - 1, s);
      var specialties := table[k - 1].1;
      if Contains(text, table[k - 1].0) {
        ScoreKeywordLookup(ScoreTable(text, table, k - 1), specialties, |specialties|, s);
      }
    }
  }

  /** No keyword with any specialty occurs in the text. */
  ghost predicate NoKeywordMatches(text: string, table: KeywordTable, k: nat)
    requires k <= |table|
  {
    forall m :: 0 <= m < k ==> !Contains(text, table[m].0) || table[m].1 == []
  }

  /** The dictionary has distinct keys, and it is empty exactly when no keyword
      with a specialty occurs in the text. */
  lemma {:induction false} ScoreTableShape(text: string, table: KeywordTable, k: nat)
    requires k <= |table|
    ensures DistinctKeys(ScoreTable(text, table, k))
    ensures ScoreTable(text, table, k) == [] <==> NoKeywordMatches(text, table, k)
  {
    if k > 0 {
      ScoreTableShape(text, table, k - 1);
      var specialties := table[k - 1].1;
      if Contains(text, table[k - 1].0) {
        ScoreKeywordDistinct(ScoreTable(text, table, k - 1), specialties, |specialties|);
      }
    }
  }

  /** Sort key of `(a, b) => b[1] - a[1]`: higher scores first. */
  function ByScoreDescending(e: (string, real)): real
  {
    -e.1
  }

  /** The top specialties by score, ties in first-scored order, or the default:
      one to three of them, as many as there are scores up to three. */
  function Ranked(scores: Scores): (r: seq<string>)
    ensures 1 <= |r| <= MaxRanked
    ensures scores == [] ==> r == [DefaultSpecialty]
    ensures scores != [] ==> |r| == if |scores| < MaxRanked then |scores| else MaxRanked
  {
    SortByPermutes(scores, ByScoreDescending);
    var sorted := SortBy(scores, ByScoreDescending);
    var top := sorted[..if |sorted| < MaxRanked then |sorted| else MaxRanked];
    if top == [] then [DefaultSpecialty] else Names(top)
  }

  /** A sorted entry is an entry of the dictionary, so its name is scored
      with the score it carries. */
  lemma SortedEntryScored(scores: Scores, i: nat)
    requires DistinctKeys(scores) && i < |SortBy(scores, ByScoreDescending)|
    ensures var e := SortBy(scores, ByScoreDescending)[i];
      e.0 in Names(scores) && Lookup(scores, e.0) == e.1
  {
    var sorted := SortBy(scores, ByScoreDescending);
    SortByPermutes(scores, ByScoreDescending);
    assert sorted[i] in multiset(scores);
    var k :| 0 <= k < |scores| && scores[k] == sorted[i];
    assert Names(scores)[k] == sorted[i].0;
    LookupEntry(scores, k);
  }

  /** Every scored name has a place in the sorted entries. */
  lemma SortedPlace(scores: Scores, t: string) returns (p: nat)
    requires t in Names(scores)
    ensures p < |SortBy(scores, ByScoreDescending)| && SortBy(scores, ByScoreDescending)[p].0 == t
  {
    var sorted := SortBy(scores, ByScoreDescending);
    SortByPermutes(scores, ByScoreDescending);
    var k :| 0 <= k < |scores| && Names(scores)[k] == t;
    assert scores[k] in multiset(sorted);
    p :| 0 <= p < |sorted| && sorted[p] == scores[k];
  }

  /** The ranking is the names of the first three sorted entries. */
  lemma RankedTop(scores: Scores)
    requires scores != []
    ensures var sorted := SortBy(scores, ByScoreDescending);
      && |Ranked(scores)| <= |sorted|
      && (|Ranked(scores)| == MaxRanked || |Ranked(scores)| == |sorted|)
      && forall i :: 0 <= i < |Ranked(scores)| ==> Ranked(scores)[i] == sorted[i].0
  {
    SortByPermutes(scores, ByScoreDescending);
  }

  /** The ranked specialties are scored ones, in non-increasing score order,
      and no specialty left out scores above any that was ranked. */
  lemma RankedAreTopScores(scores: Scores)
    requires DistinctKeys(scores) && scores != []
    ensures var r := Ranked(scores);
      && (forall i :: 0 <= i < |r| ==> r[i] in Names(scores))
      && (forall i, j :: 0 <= i < j < |r| ==> Lookup(scores, r[i]) >= Lookup(scores, r[j]))
      && (forall t, i :: t in Names(scores) && t !in r && 0 <= i < |r| ==> Lookup(scores, t) <= Lookup(scores, r[i]))
  {
    var sorted := SortBy(scores, ByScoreDescending);
    var r := Ranked(scores);
    RankedTop(scores);
    SortBySorted(scores, ByScoreDescending);
    forall i | 0 <= i < |r| ensures r[i] in Names(scores) && Lookup(scores, r[i]) == sorted[i].1 {
      SortedEntryScored(scores, i);
    }
    forall i, j | 0 <= i < j < |r| ensures Lookup(scores, r[i]) >= Lookup(scores, r[j]) {
      assert ByScoreDescending(sorted[i]) <= ByScoreDescending(sorted[j]);
    }
    forall t, i | t in Names(scores) && t !in r && 0 <= i < |r|
      ensures Lookup(scores, t) <= Lookup(scores, r[i])
    {
      var p := SortedPlace(scores, t);
      SortedEntryScored(scores, p);
      assert forall q :: 0 <= q < |r| ==> r[q] != t;
      assert |r| <= p;
      assert ByScoreDescending(sorted[i]) <= ByScoreDescending(sorted[p]);
    }
  }

  /** Math.max(0.95 - 0.15 * rank, 0.5). */
  function Confidence(rank: nat): (c: real)
    ensures 0.5 <= c <= 0.95
    ensures rank <= MaxRanked ==> c == 0.95 - 0.15 * rank as real
  {
    var raw := 0.95 - 0.15 * rank as real;
    if raw > 0.5 then raw else 0.5
  }

  function WithSpecialty(specialty: string): Provider -> bool
  {
    (p: Provider) => p.specialty == specialty
  }

  /** The explanation text for a specialty, or the generic sentence when it has
      none or an empty one; either way the rationale is never empty. */
  function Rationale(specialty: string, explanations: map<string, string>): (r: string)
    ensures specialty in explanations && explanations[specialty] != "" ==> r == explanations[specialty]
    ensures specialty !in explanations || explanations[specialty] == "" ==>
      r == specialty + " specialists can help with your described symptoms"
    ensures r != ""
  {
    if specialty in explanations && explanations[specialty] != "" then explanations[specialty]
    else specialty + " specialists can help with your described symptoms"
  }

  /** `providers.filter(p => p.specialty === specialty)[0]`: the index of the
      first provider whose specialty is exactly `specialty`. */
  function ProviderFor(providers: seq<Provider>, specialty: string): (r: Option<nat>)
    ensures r.Some? ==> r.value < |providers| && providers[r.value].specialty == specialty
    ensures r.Some? ==> forall k :: 0 <= k < r.value ==> providers[k].specialty != specialty
    ensures r.None? <==> forall k :: 0 <= k < |providers| ==> providers[k].specialty != specialty
  {
    FirstIndex(providers, WithSpecialty(specialty))
  }

  /** What the i-th ranked specialty maps to: its first provider's card, or
      nothing when no provider has that specialty. */
  function RecommendationAt(ranked: seq<string>, i: nat, providers: seq<Provider>, explanations: map<string, string>)
    : (r: Option<Recommendation>)
    requires i < |ranked|
    ensures r.Some? <==> ProviderFor(providers, ranked[i]).Some?
    ensures r.Some? ==>
      var p := providers[ProviderFor(providers, ranked[i]).value];
      r.value.providerId == p.id && r.value.providerName == p.name && r.value.rating == p.rating
    ensures r.Some? ==> r.value.specialty == ranked[i] && r.value.confidence == Confidence(i)
    ensures r.Some? ==> r.value.rationale == Rationale(ranked[i], explanations)
  {
    match ProviderFor(providers, ranked[i])
    case None => None
    case Some(j) =>
      var p := providers[j];
      Some(Recommendation(p.id, p.name, p.specialty, p.rating, Confidence(i), Rationale(ranked[i], explanations)))
  }

  /** `rankedSpecialties.map(...)`: one card, or nothing, per ranked specialty. */
  function Cards(ranked: seq<string>, providers: seq<Provider>, explanations: map<string, string>)
    : (r: seq<Option<Recommendation>>)
    ensures |r| == |ranked|
    ensures forall i :: 0 <= i < |ranked| ==> r[i] == RecommendationAt(ranked, i, providers, explanations)
  {
    seq(|ranked|, i requires 0 <= i < |ranked| => RecommendationAt(ranked, i, providers, explanations))
  }

  /** The cards kept are, in rank order, those of the ranked specialties that
      have a provider, and every such card is kept. */
  lemma AssembleSpec(ranked: seq<string>, providers: seq<Provider>, explanations: map<string, string>)
    ensures var recs := Somes(Cards(ranked, providers, explanations));
      var ks := SomeIndices(Cards(ranked, providers, explanations));
      && |recs| == |ks| <= |ranked|
      && (forall k :: 0 <= k < |ks| ==>
            ks[k] < |ranked| && RecommendationAt(ranked, ks[k], providers, explanations) == Some(recs[k]))
      && (forall a, b :: 0 <= a < b < |ks| ==> ks[a] < ks[b])
      && (forall i :: 0 <= i < |ranked| && RecommendationAt(ranked, i, providers, explanations).Some? ==>
            RecommendationAt(ranked, i, providers, explanations).value in recs)
  {
    var cards := Cards(ranked, providers, explanations);
    SomesSound(cards);
    SomesComplete(cards);
  }

  /** `getRecommendations`; the nested loops accumulate the score dictionary. */
  method GetRecommendations(symptomsText: string, table: KeywordTable, explanations: map<string, string>, providers: seq<Provider>)
    returns (recs: seq<Recommendation>)
    ensures |recs| <= MaxRanked
    ensures recs == Somes(Cards(Ranked(ScoreTable(ToLower(symptomsText), table, |table|)), providers, explanations))
  {
    var text := ToLower(symptomsText);
    var scores: Scores := [];
    var k := 0;
    while k < |table|
      invariant k <= |table|
      invariant scores == ScoreTable(text, table, k)
    {
      var keyword := table[k].0;
      var specialties := table[k].1;
      if Contains(text, keyword) {
        ghost var before := scores;
        var j := 0;
        while j < |specialties|
          invariant j <= |specialties|
          invariant scores == ScoreKeyword(before, specialties, j)
        {
          scores := AddScore(scores, specialties[j], Weight(|specialties|, j));
          j := j + 1;
        }
      }
      k := k + 1;
    }
    var ranked := Ranked(scores);
    recs := Somes(Cards(ranked, providers, explanations));
  }

  /** With no keyword matched the only ranked specialty is General Practice;
      otherwise every ranked specialty was scored. */
  lemma NoMatchRanksDefault(text: string, table: KeywordTable)
    ensures NoKeywordMatches(text, table, |table|) ==> Ranked(ScoreTable(text, table, |table|)) == [DefaultSpecialty]
    ensures !NoKeywordMatches(text, table, |table|) ==>
      var scores := ScoreTable(text, table, |table|);
      forall s :: s in Ranked(scores) ==> s in Names(scores)
  {
    var scores := ScoreTable(text, table, |table|);
    ScoreTableShape(text, table, |table|);
    if scores != [] {
      RankedAreTopScores(scores);
    }
  }

  /** Keyword `m` is the only one that occurs in the text. */
  ghost predicate OnlyMatch(text: string, table: KeywordTable, m: nat)
  {
    && m < |table|
    && Contains(text, table[m].0)
    && forall k :: 0 <= k < |table| && k != m ==> !Contains(text, table[k].0)
  }

  /** A keyword's specialties with their weights, in list order. */
  function Weighted(specialties: seq<string>, j: nat): (r: Scores)
    requires j <= |specialties|
    ensures |r| == j
  {
    seq(j, i requires 0 <= i < j => (specialties[i], Weight(|specialties|, i)))
  }

  lemma WeightedStep(specialties: seq<string>, j: nat)
    requires 0 < j <= |specialties|
    ensures Weighted(specialties, j) == Weighted(specialties, j - 1) + [(specialties[j - 1], Weight(|specialties|, j - 1))]
    ensures Names(Weighted(specialties, j - 1)) == specialties[..j - 1]
  {
    var prev := Weighted(specialties, j - 1);
    assert forall i :: 0 <= i < j - 1 ==> Names(prev)[i] == specialties[i];
  }

  lemma {:induction false} ScoreKeywordFromEmpty(specialties: seq<string>, j: nat)
    requires j <= |specialties| && Distinct(specialties)
    ensures ScoreKeyword([], specialties, j) == Weighted(specialties, j)
  {
    if j > 0 {
      ScoreKeywordFromEmpty(specialties, j - 1);
      WeightedStep(specialties, j);
      assert specialties[j - 1] !in specialties[..j - 1];
      AddScoreShape(Weighted(specialties, j - 1), specialties[j - 1], Weight(|specialties|, j - 1));
    }
  }

  lemma {:induction false} ScoreTableOnlyMatch(text: string, table: KeywordTable, m: nat, k: nat)
    requires OnlyMatch(text, table, m) && k <= |table|
    ensures ScoreTable(text, table, k) == if k <= m then [] else ScoreKeyword([], table[m].1, |table[m].1|)
  {
    if k > 0 {
      ScoreTableOnlyMatch(text, table, m, k - 1);
    }
  }

  /** A keyword's own weights fall strictly along its list. */
  lemma WeightedLookup(specialties: seq<string>)
    requires Distinct(specialties)
    ensures var scores := Weighted(specialties, |specialties|);
      && DistinctKeys(scores)
      && forall i, j :: 0 <= i < j < |specialties| ==> Lookup(scores, specialties[i]) > Lookup(scores, specialties[j])
  {
    var n := |specialties|;
    var scores := Weighted(specialties, n);
    assert Names(scores) == specialties;
    forall i, j | 0 <= i < j < n
      ensures Lookup(scores, specialties[i]) > Lookup(scores, specialties[j])
    {
      LookupEntry(scores, i);
      LookupEntry(scores, j);
      WeightDecreases(n, i, j);
    }
  }

  /** Ranking a keyword's own weights keeps its list order. */
  lemma WeightedRanked(specialties: seq<string>)
    requires |specialties| > 0
    ensures Ranked(Weighted(specialties, |specialties|))
      == specialties[..if |specialties| < MaxRanked then |specialties| else MaxRanked]
  {
    var n := |specialties|;
    var scores := Weighted(specialties, n);
    assert SortedBy(scores, ByScoreDescending) by {
      forall i, j | 0 <= i < j < |scores| ensures ByScoreDescending(scores[i]) <= ByScoreDescending(scores[j]) {
        WeightDecreases(n, i, j);
      }
    }
    SortByKeepsSorted(scores, ByScoreDescending);
    var top := if n < MaxRanked then n else MaxRanked;
    assert Names(scores[..top]) == specialties[..top];
  }

  /** A text matching a single keyword whose specialties are distinct ranks
      them in list order, earlier ones strictly higher, cut to the top three. */
  lemma SingleKeywordRanking(text: string, table: KeywordTable, m: nat)
    requires OnlyMatch(text, table, m)
    requires |table[m].1| > 0 && Distinct(table[m].1)
    ensures var specialties := table[m].1;
      var scores := ScoreTable(text, table, |table|);
      && (forall i, j :: 0 <= i < j < |specialties| ==> Lookup(scores, specialties[i]) > Lookup(scores, specialties[j]))
      && Ranked(scores) == specialties[..if |specialties| < MaxRanked then |specialties| else MaxRanked]
  {
    var specialties := table[m].1;
    ScoreTableOnlyMatch(text, table, m, |table|);
    ScoreKeywordFromEmpty(specialties, |specialties|);
    WeightedLookup(specialties);
    WeightedRanked(specialties);
  }
}
