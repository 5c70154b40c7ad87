/** The records of the labour-market knowledge base and, as functions over the
    value of the whole store, what each query of the knowledge-base manager
    returns: tiered name lookup, sector listing, demand and growth filters,
    similarity and keyword ranking, training lookup, the filière/occupation
    compatibility analysis, the summary and the validation report. The class
    that holds the store and runs these queries with loops is in
    `KnowledgeBaseStore`. */
module KnowledgeBase {
  import opened Common
  import opened Text
  import opened Tables
  import opened Ranking

  /** An occupation (`Metier`). */
  datatype Metier = Metier(
    nomMetier: string,
    description: string,
    secteurActivite: string,
    competencesTechniques: seq<string>,
    competencesTransversales: seq<string>,
    formationsTypiques: seq<string>,
    niveauDemandeMarche: string,
    perspectivesCroissance: bool,
    pertinenceBenin: string)

  /** A sector (`Secteur`), naming its occupations. */
  datatype Secteur = Secteur(nomSecteur: string, description: string, metiersAssocies: seq<string>)

  /** A skill (`Competence`). */
  datatype Competence = Competence(nomCompetence: string, typeCompetence: string, description: string)

  /** A training programme (`Formation`). */
  datatype Formation = Formation(
    nomFormation: string,
    description: string,
    metiersPrepares: seq<string>,
    institutionsReferences: seq<string>)

  /** The four collections of a knowledge-base document, already parsed; an
      absent collection is the empty one. */
  datatype KnowledgeBaseData = KnowledgeBaseData(
    metiers: seq<Metier>,
    secteurs: seq<Secteur>,
    competences: seq<Competence>,
    formations: seq<Formation>)

  /** The value of the manager: four tables keyed by lower-cased name, and the loaded flag. */
  datatype Store = Store(
    metiers: Table<Metier>,
    secteurs: Table<Secteur>,
    competences: Table<Competence>,
    formations: Table<Formation>,
    isLoaded: bool)

  function MetierKey(m: Metier): string { Lower(m.nomMetier) }
  function SecteurKey(s: Secteur): string { Lower(s.nomSecteur) }
  function CompetenceKey(c: Competence): string { Lower(c.nomCompetence) }
  function FormationKey(f: Formation): string { Lower(f.nomFormation) }

  /** Each table is a dict (unique keys) whose entries sit under their record's lower-cased name. */
  ghost predicate WellFormed(s: Store) {
    && UniqueKeys(s.metiers) && WellKeyed(s.metiers, MetierKey)
    && UniqueKeys(s.secteurs) && WellKeyed(s.secteurs, SecteurKey)
    && UniqueKeys(s.competences) && WellKeyed(s.competences, CompetenceKey)
    && UniqueKeys(s.formations) && WellKeyed(s.formations, FormationKey)
  }

  /** The store after loading a document: every record of each collection is
      assigned under its lower-cased name, in document order, on top of what
      the store already held; then the store is marked loaded. */
  function Loaded(s: Store, d: KnowledgeBaseData): (r: Store)
    ensures r.isLoaded
  {
    Store(PutAll(s.metiers, d.metiers, MetierKey),
          PutAll(s.secteurs, d.secteurs, SecteurKey),
          PutAll(s.competences, d.competences, CompetenceKey),
          PutAll(s.formations, d.formations, FormationKey),
          true)
  }

  /** Loading keeps the store well formed and keeps the names already present
      in their place. */
  lemma LoadedWellFormed(s: Store, d: KnowledgeBaseData)
    requires WellFormed(s)
    ensures WellFormed(Loaded(s, d))
    ensures |Loaded(s, d).metiers| >= |s.metiers| && |Loaded(s, d).secteurs| >= |s.secteurs|
    ensures Keys(Loaded(s, d).metiers)[..|s.metiers|] == Keys(s.metiers)
    ensures Keys(Loaded(s, d).secteurs)[..|s.secteurs|] == Keys(s.secteurs)
  {
    PutAllInvariant(s.metiers, d.metiers, MetierKey);
    PutAllInvariant(s.secteurs, d.secteurs, SecteurKey);
    PutAllInvariant(s.competences, d.competences, CompetenceKey);
    PutAllInvariant(s.formations, d.formations, FormationKey);
  }

  /** After loading, each lower-cased occupation name holds the last record of
      the document with that name, and an exact-name query finds it. */
  lemma LoadedFindsLastRecord(s: Store, d: KnowledgeBaseData, m: Metier)
    requires WellFormed(s) && m in d.metiers
    ensures LastWithKey(d.metiers, MetierKey, MetierKey(m)).Some?
    ensures var last := LastWithKey(d.metiers, MetierKey, MetierKey(m)).value;
      Get(Loaded(s, d).metiers, MetierKey(m)) == Some(last)
      && (Strip(MetierKey(m)) == MetierKey(m) && m.nomMetier != "" ==> FindMetier(Loaded(s, d), m.nomMetier) == Some(last))
  {
    var k := MetierKey(m);
    GetPutAll(s.metiers, d.metiers, MetierKey, k);
    var t := Loaded(s, d).metiers;
    LoadedWellFormed(s, d);
    if Strip(k) == k && m.nomMetier != "" {
      assert SearchKey(m.nomMetier) == k;
      var i := IndexOfKey(t, k);
      FindByExactName(t, i, m.nomMetier, true);
    }
  }

  // ---------------------------------------------------------------------------
  // Lookup by name: exact key, then substring either way, then a shared word.

  /** The search key: `name.lower().strip()`. */
  function SearchKey(query: string): string {
    Strip(Lower(query))
  }

  predicate PartialMatch(key: string, q: string) {
    Contains(key, q) || Contains(q, key)
  }

  /** `any(mot in nom for mot in mots)`. */
  predicate AnyWordIn(words: seq<string>, key: string) {
    exists w :: w in words && Contains(key, w)
  }

  /** The first entry at or after `i` whose key contains the query or lies inside it. */
  function FirstPartialFrom<V>(t: Table<V>, q: string, i: nat): (r: Option<V>)
    decreases |t| - i
    ensures r.Some? ==> exists j :: i <= j < |t| && PartialMatch(t[j].0, q) && r.value == t[j].1
                                    && forall k :: i <= k < j ==> !PartialMatch(t[k].0, q)
    ensures r.None? ==> forall k :: i <= k < |t| ==> !PartialMatch(t[k].0, q)
  {
    if i >= |t| then None
    else if PartialMatch(t[i].0, q) then Some(t[i].1)
    else FirstPartialFrom(t, q, i + 1)
  }

  /** The first entry at or after `i` whose key contains one of the words. */
  function FirstWordMatchFrom<V>(t: Table<V>, words: seq<string>, i: nat): (r: Option<V>)
    decreases |t| - i
    ensures r.Some? ==> exists j :: i <= j < |t| && AnyWordIn(words, t[j].0) && r.value == t[j].1
                                    && forall k :: i <= k < j ==> !AnyWordIn(words, t[k].0)
    ensures r.None? ==> forall k :: i <= k < |t| ==> !AnyWordIn(words, t[k].0)
  {
    if i >= |t| then None
    else if AnyWordIn(words, t[i].0) then Some(t[i].1)
    else FirstWordMatchFrom(t, words, i + 1)
  }

  /** `find_metier` (with the word tier) and `find_secteur` (without it). */
  function FindByName<V>(t: Table<V>, query: string, wordTier: bool): (r: Option<V>)
    ensures query == "" ==> r == None
    ensures r.Some? ==> r.value in Values(t)
  {
    if query == "" then None
    else
      var q := SearchKey(query);
      var exact := Get(t, q);
      if exact.Some? then exact
      else
        var partial := FirstPartialFrom(t, q, 0);
        if partial.Some? || !wordTier then partial
        else FirstWordMatchFrom(t, Words(q), 0)
  }

  function FindMetier(s: Store, query: string): Option<Metier> {
    FindByName(s.metiers, query, true)
  }

  function FindSecteur(s: Store, query: string): Option<Secteur> {
    FindByName(s.secteurs, query, false)
  }

  /** First tier: a search key that is a stored key returns that entry. */
  lemma FindByNameExactTier<V>(t: Table<V>, query: string, wordTier: bool)
    requires query != "" && SearchKey(query) in Keys(t)
    ensures FindByName(t, query, wordTier) == Get(t, SearchKey(query))
  {
  }

  /** Second tier: otherwise the first entry whose key and the search key
      contain one another. */
  lemma FindByNamePartialTier<V>(t: Table<V>, query: string, wordTier: bool, j: nat)
    requires query != "" && SearchKey(query) !in Keys(t)
    requires j < |t| && PartialMatch(t[j].0, SearchKey(query))
    requires forall k :: 0 <= k < j ==> !PartialMatch(t[k].0, SearchKey(query))
    ensures FindByName(t, query, wordTier) == Some(t[j].1)
  {
    var q := SearchKey(query);
    var r := FirstPartialFrom(t, q, 0);
    var j' :| 0 <= j' < |t| && PartialMatch(t[j'].0, q) && r.value == t[j'].1
              && forall k :: 0 <= k < j' ==> !PartialMatch(t[k].0, q);
    assert j' == j;
  }

  /** Third tier (occupations only): otherwise the first entry whose key
      contains a word of the search key. */
  lemma FindByNameWordTier<V>(t: Table<V>, query: string, j: nat)
    requires query != "" && SearchKey(query) !in Keys(t)
    requires forall k :: 0 <= k < |t| ==> !PartialMatch(t[k].0, SearchKey(query))
    requires j < |t| && AnyWordIn(Words(SearchKey(query)), t[j].0)
    requires forall k :: 0 <= k < j ==> !AnyWordIn(Words(SearchKey(query)), t[k].0)
    ensures FindByName(t, query, true) == Some(t[j].1)
  {
    var q := SearchKey(query);
    assert FirstPartialFrom(t, q, 0).None?;
    var r := FirstWordMatchFrom(t, Words(q), 0);
    var j' :| 0 <= j' < |t| && AnyWordIn(Words(q), t[j'].0) && r.value == t[j'].1
              && forall k :: 0 <= k < j' ==> !AnyWordIn(Words(q), t[k].0);
    assert j' == j;
  }

  /** Nothing is found exactly when every tier fails. */
  lemma FindByNameNone<V>(t: Table<V>, query: string, wordTier: bool)
    requires query != ""
    ensures FindByName(t, query, wordTier) == None <==>
              SearchKey(query) !in Keys(t)
              && (forall k :: 0 <= k < |t| ==> !PartialMatch(t[k].0, SearchKey(query)))
              && (wordTier ==> forall k :: 0 <= k < |t| ==> !AnyWordIn(Words(SearchKey(query)), t[k].0))
  {
  }

  /** A query that, once lower-cased and stripped, is a stored name finds that
      entry whatever its case and surrounding white space. */
  lemma FindByExactName<V>(t: Table<V>, i: nat, query: string, wordTier: bool)
    requires UniqueKeys(t) && i < |t|
    requires query != "" && SearchKey(query) == t[i].0
    ensures FindByName(t, query, wordTier) == Some(t[i].1)
  {
    assert SearchKey(query) in Keys(t);
    var j := IndexOfKey(t, t[i].0);
    assert j == i;
  }

  /** A query made only of white space is not rejected by the emptiness test;
      its search key is empty, which lies inside every stored name, so it finds
      the first entry (when no entry has the empty name). */
  lemma BlankQueryFindsFirst<V>(t: Table<V>, query: string, wordTier: bool)
    requires query != "" && forall k :: 0 <= k < |query| ==> IsSpace(query[k])
    requires |t| > 0 && "" !in Keys(t)
    ensures FindByName(t, query, wordTier) == Some(t[0].1)
  {
    assert Lower(query) == query;
    StripEmpty(query);
    ContainsEmpty(t[0].0);
  }

  // ---------------------------------------------------------------------------
  // Sector listing and filters

  /** `find_metier` applied to each name. */
  function Lookups(t: Table<Metier>, names: seq<string>): (r: seq<Option<Metier>>)
    ensures |r| == |names| && forall k :: 0 <= k < |names| ==> r[k] == FindByName(t, names[k], true)
  {
    if names == [] then []
    else Lookups(t, names[..|names| - 1]) + [FindByName(t, names[|names| - 1], true)]
  }

  /** `[find_metier(n) for n in names if find_metier(n)]`: the resolved
      occupations, in the order of the names, each a stored one; every name
      is kept exactly when each of them resolves. */
  function ResolveNames(t: Table<Metier>, names: seq<string>): (r: seq<Metier>)
    ensures |r| <= |names|
    ensures forall k :: 0 <= k < |r| ==> r[k] in Values(t)
    ensures |r| == |names| <==> forall k :: 0 <= k < |names| ==> FindByName(t, names[k], true).Some?
  {
    var lookups := Lookups(t, names);
    PresentAll(lookups);
    Present(lookups)
  }

  /** Resolving one more name appends its occupation when it resolves. */
  lemma ResolveNamesNext(t: Table<Metier>, names: seq<string>, i: nat)
    requires i < |names|
    ensures ResolveNames(t, names[..i + 1])
         == ResolveNames(t, names[..i])
            + (if FindByName(t, names[i], true).Some? then [FindByName(t, names[i], true).value] else [])
  {
    assert names[..i + 1][..i] == names[..i];
    assert Lookups(t, names[..i + 1]) == Lookups(t, names[..i]) + [FindByName(t, names[i], true)];
    PresentSnoc(Lookups(t, names[..i]), FindByName(t, names[i], true));
  }

  /** `get_metiers_by_secteur`. */
  function MetiersBySecteur(s: Store, nomSecteur: string): (r: seq<Metier>)
    ensures FindSecteur(s, nomSecteur).None? ==> r == []
    ensures FindSecteur(s, nomSecteur).Some? ==> |r| <= |FindSecteur(s, nomSecteur).value.metiersAssocies|
    ensures forall k :: 0 <= k < |r| ==> r[k] in Values(s.metiers)
  {
    match FindSecteur(s, nomSecteur)
    case None => []
    case Some(sec) => ResolveNames(s.metiers, sec.metiersAssocies)
  }

  predicate IsHighDemand(m: Metier) { Lower(m.niveauDemandeMarche) == "élevé" }
  predicate HasGrowth(m: Metier) { m.perspectivesCroissance }

  /** `get_metiers_high_demand`. */
  function HighDemand(s: Store): seq<Metier> {
    Filter(Values(s.metiers), IsHighDemand)
  }

  /** `get_metiers_with_growth`. */
  function WithGrowth(s: Store): seq<Metier> {
    Filter(Values(s.metiers), HasGrowth)
  }

  /** `get_secteurs_porteurs`: every sector, in store order. */
  function SecteursPorteurs(s: Store): seq<Secteur> {
    Values(s.secteurs)
  }

  // ---------------------------------------------------------------------------
  // Similar occupations

  function AsSet(xs: seq<string>): set<string> {
    set x | x in xs
  }

  /** Twice the similarity score: 3 for the same sector (case-insensitive),
      1 per shared technical skill and 0.5 per shared transversal skill. */
  function SimilarityScore2(m: Metier, ref: Metier): int {
    (if Lower(m.secteurActivite) == Lower(ref.secteurActivite) then 6 else 0)
    + 2 * |AsSet(m.competencesTechniques) * AsSet(ref.competencesTechniques)|
    + |AsSet(m.competencesTransversales) * AsSet(ref.competencesTransversales)|
  }

  predicate SimilarCandidate(m: Metier, ref: Metier) {
    m.nomMetier != ref.nomMetier && SimilarityScore2(m, ref) > 0
  }

  /** The `(metier, score)` list built by the loop over the first `n` entries. */
  function SimilarCandidates(t: Table<Metier>, ref: Metier, n: nat): (r: seq<Ranked>)
    requires n <= |t|
    ensures PositionsIncreasing(r)
    ensures forall x :: x in r <==> x.pos < n && SimilarCandidate(t[x.pos].1, ref) && x.score == SimilarityScore2(t[x.pos].1, ref)
  {
    if n == 0 then []
    else
      var init := SimilarCandidates(t, ref, n - 1);
      var m := t[n - 1].1;
      if SimilarCandidate(m, ref) then init + [Ranked(n - 1, SimilarityScore2(m, ref))] else init
  }

  /** The records at the given table positions. */
  function ItemsAt<V>(t: Table<V>, rs: seq<Ranked>): (r: seq<V>)
    requires forall x :: x in rs ==> x.pos < |t|
    ensures |r| == |rs| && forall k :: 0 <= k < |rs| ==> r[k] == t[rs[k].pos].1
  {
    seq(|rs|, k requires 0 <= k < |rs| => t[rs[k].pos].1)
  }

  /** The ranked positions that `find_similar_metiers` returns. */
  function SimilarRanking(s: Store, ref: Metier, maxResults: int): (r: seq<Ranked>)
    ensures forall x :: x in r ==> x.pos < |s.metiers|
  {
    var c := SimilarCandidates(s.metiers, ref, |s.metiers|);
    PrefixKeepsBest(c, maxResults);
    SlicePrefix(SortDesc(c), maxResults)
  }

  /** `find_similar_metiers(ref, max_results)`. */
  function SimilarMetiers(s: Store, ref: Metier, maxResults: int): seq<Metier> {
    ItemsAt(s.metiers, SimilarRanking(s, ref, maxResults))
  }

  /** What `find_similar_metiers` promises: never the reference itself, at most
      `max_results` items, only positive scores, scores non-increasing, ties
      in store order, and nothing better left out. */
  lemma SimilarMetiersSpec(s: Store, ref: Metier, maxResults: int)
    ensures var r := SimilarMetiers(s, ref, maxResults);
      && (0 <= maxResults ==> |r| <= maxResults)
      && (forall k :: 0 <= k < |r| ==> r[k].nomMetier != ref.nomMetier && SimilarityScore2(r[k], ref) > 0)
      && (forall i, j :: 0 <= i < j < |r| ==> SimilarityScore2(r[i], ref) >= SimilarityScore2(r[j], ref))
    ensures var rk := SimilarRanking(s, ref, maxResults);
      forall i, j :: 0 <= i < j < |rk| && rk[i].score == rk[j].score ==> rk[i].pos < rk[j].pos
    ensures var rk := SimilarRanking(s, ref, maxResults);
      forall p :: 0 <= p < |s.metiers| && SimilarCandidate(s.metiers[p].1, ref)
                  && Ranked(p, SimilarityScore2(s.metiers[p].1, ref)) !in rk
        ==> (0 <= maxResults ==> |rk| == maxResults)
            && forall k :: 0 <= k < |rk| ==> rk[k].score >= SimilarityScore2(s.metiers[p].1, ref)
  {
    var t := s.metiers;
    var c := SimilarCandidates(t, ref, |t|);
    PrefixKeepsBest(c, maxResults);
    var rk := SimilarRanking(s, ref, maxResults);
    var r := SimilarMetiers(s, ref, maxResults);
    forall k | 0 <= k < |r| ensures r[k].nomMetier != ref.nomMetier && SimilarityScore2(r[k], ref) > 0 {
      assert rk[k] in c;
    }
    forall i, j | 0 <= i < j < |r| ensures SimilarityScore2(r[i], ref) >= SimilarityScore2(r[j], ref) {
      assert rk[i] in c && rk[j] in c;
      assert Before(rk[i], rk[j]);
    }
    forall p | 0 <= p < |t| && SimilarCandidate(t[p].1, ref) && Ranked(p, SimilarityScore2(t[p].1, ref)) !in rk
      ensures (0 <= maxResults ==> |rk| == maxResults)
              && forall k :: 0 <= k < |rk| ==> rk[k].score >= SimilarityScore2(t[p].1, ref)
    {
      var x := Ranked(p, SimilarityScore2(t[p].1, ref));
      assert x in c;
      forall k | 0 <= k < |rk| ensures rk[k].score >= x.score {
        assert rk[k] in rk;
        assert Before(rk[k], x);
      }
    }
  }

  // ---------------------------------------------------------------------------
  // Trainings for an occupation

  /** Some occupation the training prepares for contains the name (case-insensitive). */
  predicate PreparesFor(f: Formation, nomMetier: string) {
    exists p :: p in f.metiersPrepares && Contains(Lower(p), Lower(nomMetier))
  }

  /** `get_formations_for_metier` over the first `n` trainings. */
  function FormationsForUpTo(t: Table<Formation>, nomMetier: string, n: nat): (r: seq<Formation>)
    requires n <= |t|
    ensures |r| <= n
    ensures forall f :: f in r <==> exists k :: 0 <= k < n && t[k].1 == f && PreparesFor(f, nomMetier)
  {
    if n == 0 then []
    else
      var init := FormationsForUpTo(t, nomMetier, n - 1);
      if PreparesFor(t[n - 1].1, nomMetier) then init + [t[n - 1].1] else init
  }

  /** `get_formations_for_metier`. */
  function FormationsFor(s: Store, nomMetier: string): seq<Formation> {
    FormationsForUpTo(s.formations, nomMetier, |s.formations|)
  }

  // ---------------------------------------------------------------------------
  // Filière / occupation compatibility

  const ExcellentFit := "Excellente adéquation entre votre filière et le métier envisagé."
  const AdequateFit := "Adéquation correcte. Considérez des formations complémentaires."
  const LowFit := "Faible adéquation. Explorez d'autres métiers ou formations de transition."

  datatype Compatibility = Compatibility(
    metierTrouve: bool,
    metierData: Option<Metier>,
    compatibilityScore: int,
    formationsMatching: seq<string>,
    competencesGaps: seq<string>,
    recommendations: seq<string>)

  /** The training name and the filière contain one another, case-insensitively. */
  predicate TrainingMatches(formation: string, filiere: string) {
    Contains(Lower(formation), Lower(filiere)) || Contains(Lower(filiere), Lower(formation))
  }

  /** The typical trainings matching the filière, in their order. */
  function MatchingFormations(typiques: seq<string>, filiere: string): (r: seq<string>)
    ensures |r| <= |typiques|
    ensures forall f :: f in r <==> f in typiques && TrainingMatches(f, filiere)
  {
    if typiques == [] then []
    else
      var init := MatchingFormations(typiques[..|typiques| - 1], filiere);
      var f := typiques[|typiques| - 1];
      if TrainingMatches(f, filiere) then init + [f] else init
  }

  /** The score for a resolved occupation. */
  function FitScore(matching: seq<string>, m: Metier): int {
    if matching != [] then 8 else if m.competencesTransversales != [] then 5 else 2
  }

  /** The one canned recommendation, chosen by the thresholds 7 and 5. */
  function FitRecommendation(score: int): string {
    if score >= 7 then ExcellentFit else if score >= 5 then AdequateFit else LowFit
  }

  const NotFound := Compatibility(false, None, 0, [], [], [])

  /** `analyze_filiere_metier_compatibility`. */
  function CompatibilityOf(s: Store, filiere: string, metierEnvisage: string): (r: Compatibility)
    ensures r.compatibilityScore in {0, 2, 5, 8} && 0 <= r.compatibilityScore <= 10
    ensures r.metierTrouve <==> r.metierData.Some?
    ensures r.metierData == FindMetier(s, metierEnvisage)
  {
    match FindMetier(s, metierEnvisage)
    case None => NotFound
    case Some(m) =>
      var matching := MatchingFormations(m.formationsTypiques, filiere);
      var score := FitScore(matching, m);
      Compatibility(true, Some(m), score, matching, if matching == [] then m.competencesTechniques else [],
                    [FitRecommendation(score)])
  }

  /** An occupation that does not resolve gives the empty analysis. */
  lemma CompatibilityNotFound(s: Store, filiere: string, metierEnvisage: string)
    requires FindMetier(s, metierEnvisage).None?
    ensures var r := CompatibilityOf(s, filiere, metierEnvisage);
      !r.metierTrouve && r.metierData.None? && r.compatibilityScore == 0
      && r.formationsMatching == [] && r.competencesGaps == [] && r.recommendations == []
  {
  }

  /** For a resolved occupation: matches are the typical trainings that meet the
      filière, score 8 exactly when there is one, gaps are the technical
      skills exactly when there is none, and one recommendation follows the
      score. */
  lemma CompatibilityFound(s: Store, filiere: string, metierEnvisage: string)
    requires FindMetier(s, metierEnvisage).Some?
    ensures var m := FindMetier(s, metierEnvisage).value;
      var r := CompatibilityOf(s, filiere, metierEnvisage);
      && r.metierTrouve
      && (forall f :: f in r.formationsMatching <==> f in m.formationsTypiques && TrainingMatches(f, filiere))
      && (r.compatibilityScore == 8 <==> r.formationsMatching != [])
      && (r.compatibilityScore == 5 <==> r.formationsMatching == [] && m.competencesTransversales != [])
      && (r.formationsMatching == [] ==> r.competencesGaps == m.competencesTechniques)
      && (r.formationsMatching != [] ==> r.competencesGaps == [])
      && |r.recommendations| == 1
      && (r.recommendations[0] == ExcellentFit <==> r.compatibilityScore >= 7)
      && (r.recommendations[0] == AdequateFit <==> 5 <= r.compatibilityScore < 7)
  {
  }

  /** An empty filière lies inside every training name, so every typical
      training matches and the score is 8 whenever the occupation lists one. */
  lemma EmptyFiliereMatchesAll(s: Store, metierEnvisage: string)
    requires FindMetier(s, metierEnvisage).Some?
    requires FindMetier(s, metierEnvisage).value.formationsTypiques != []
    ensures CompatibilityOf(s, "", metierEnvisage).compatibilityScore == 8
  {
    var m := FindMetier(s, metierEnvisage).value;
    var f := m.formationsTypiques[0];
    ContainsEmpty(Lower(f));
    assert Lower("") == "";
    assert f in MatchingFormations(m.formationsTypiques, "");
  }

  // ---------------------------------------------------------------------------
  // Keyword search

  /** How many keywords (counted with repetition) occur in `text`. */
  function CountContained(keywords: seq<string>, text: string): (r: nat)
    ensures r <= |keywords|
  {
    if keywords == [] then 0
    else CountContained(keywords[..|keywords| - 1], text) + (if Contains(text, keywords[|keywords| - 1]) then 1 else 0)
  }

  /** One point per (skill, keyword) pair where the keyword occurs in the lower-cased skill. */
  function SkillHits(skills: seq<string>, keywords: seq<string>): (r: nat)
    ensures r <= |skills| * |keywords|
  {
    if skills == [] then 0
    else SkillHits(skills[..|skills| - 1], keywords) + CountContained(keywords, Lower(skills[|skills| - 1]))
  }

  /** The keyword score of an occupation, for lower-cased keywords. */
  function KeywordScore(m: Metier, keywords: seq<string>): nat {
    2 * CountContained(keywords, Lower(m.description))
    + SkillHits(m.competencesTechniques, keywords)
    + SkillHits(m.competencesTransversales, keywords)
  }

  function LowerAll(xs: seq<string>): (r: seq<string>)
    ensures |r| == |xs| && forall k :: 0 <= k < |xs| ==> r[k] == Lower(xs[k])
  {
    seq(|xs|, k requires 0 <= k < |xs| => Lower(xs[k]))
  }

  /** The `(metier, score)` list for the first `n` entries. */
  function KeywordCandidates(t: Table<Metier>, keywords: seq<string>, n: nat): (r: seq<Ranked>)
    requires n <= |t|
    ensures PositionsIncreasing(r)
    ensures forall x :: x in r <==> x.pos < n && x.score == KeywordScore(t[x.pos].1, keywords) && x.score > 0
  {
    if n == 0 then []
    else
      var init := KeywordCandidates(t, keywords, n - 1);
      var sc := KeywordScore(t[n - 1].1, keywords);
      if sc > 0 then init + [Ranked(n - 1, sc)] else init
  }

  /** Scoring one more entry appends it when its score is positive. */
  lemma KeywordCandidatesNext(t: Table<Metier>, keywords: seq<string>, i: nat)
    requires i < |t|
    ensures KeywordCandidates(t, keywords, i + 1)
         == KeywordCandidates(t, keywords, i)
            + (if KeywordScore(t[i].1, keywords) > 0 then [Ranked(i, KeywordScore(t[i].1, keywords))] else [])
  {
  }

  function KeywordRanking(s: Store, keywords: seq<string>): (r: seq<Ranked>)
    ensures forall x :: x in r ==> x.pos < |s.metiers|
  {
    if keywords == [] then []
    else
      var c := KeywordCandidates(s.metiers, LowerAll(keywords), |s.metiers|);
      assert forall x :: x in SortDesc(c) ==> x in multiset(c);
      SortDesc(c)
  }

  /** `search_metiers_by_keywords`. */
  function KeywordSearch(s: Store, keywords: seq<string>): seq<Metier> {
    ItemsAt(s.metiers, KeywordRanking(s, keywords))
  }

  /** The ranking behind the keyword search: each entry carries the score of
      the occupation it points at, which is positive; entries are in ranked
      order; and every occupation with a positive score is ranked. */
  lemma KeywordRankingSpec(s: Store, keywords: seq<string>)
    requires keywords != []
    ensures var rk := KeywordRanking(s, keywords);
      forall k :: 0 <= k < |rk| ==>
        rk[k].score == KeywordScore(s.metiers[rk[k].pos].1, LowerAll(keywords)) && rk[k].score > 0
    ensures RankedOrder(KeywordRanking(s, keywords))
    ensures var rk := KeywordRanking(s, keywords);
      forall p :: 0 <= p < |s.metiers| && KeywordScore(s.metiers[p].1, LowerAll(keywords)) > 0
        ==> Ranked(p, KeywordScore(s.metiers[p].1, LowerAll(keywords))) in rk
  {
    var kws := LowerAll(keywords);
    var c := KeywordCandidates(s.metiers, kws, |s.metiers|);
    var rk := KeywordRanking(s, keywords);
    assert rk == SortDesc(c);
    SortDescSpec(c);
  }

  /** What `search_metiers_by_keywords` promises: nothing for no keywords;
      otherwise every occupation with a positive score, once, scores
      non-increasing and ties in store order. */
  lemma KeywordSearchSpec(s: Store, keywords: seq<string>)
    ensures keywords == [] ==> KeywordSearch(s, keywords) == []
    ensures var r := KeywordSearch(s, keywords);
      forall k :: 0 <= k < |r| ==> KeywordScore(r[k], LowerAll(keywords)) > 0
    ensures var r := KeywordSearch(s, keywords);
      forall i, j :: 0 <= i < j < |r| ==> KeywordScore(r[i], LowerAll(keywords)) >= KeywordScore(r[j], LowerAll(keywords))
    ensures var rk := KeywordRanking(s, keywords);
      forall i, j :: 0 <= i < j < |rk| && rk[i].score == rk[j].score ==> rk[i].pos < rk[j].pos
    ensures var rk := KeywordRanking(s, keywords);
      keywords != [] ==>
      forall p :: 0 <= p < |s.metiers| && KeywordScore(s.metiers[p].1, LowerAll(keywords)) > 0
        ==> Ranked(p, KeywordScore(s.metiers[p].1, LowerAll(keywords))) in rk
  {
    if keywords != [] {
      KeywordRankingSpec(s, keywords);
    }
  }

  // ---------------------------------------------------------------------------
  // Summary and validation

  datatype KbSummary =
    | SummaryError(error: string)
    | KbStats(
        totalMetiers: nat,
        totalSecteurs: nat,
        totalCompetences: nat,
        totalFormations: nat,
        metiersForteDemande: nat,
        metiersCroissance: nat,
        secteursDisponibles: seq<string>,
        isLoaded: bool)

  const NotLoadedMessage := "Base de connaissances non chargée"

  function SectorNames(t: Table<Secteur>): (r: seq<string>)
    ensures |r| == |t| && forall k :: 0 <= k < |t| ==> r[k] == t[k].1.nomSecteur
  {
    seq(|t|, k requires 0 <= k < |t| => t[k].1.nomSecteur)
  }

  /** `get_knowledge_base_summary`. */
  function Summary(s: Store): (r: KbSummary)
    ensures !s.isLoaded <==> r.SummaryError?
    ensures r.KbStats? ==> r.metiersForteDemande <= r.totalMetiers && r.metiersCroissance <= r.totalMetiers
    ensures r.KbStats? ==> |r.secteursDisponibles| == r.totalSecteurs
    ensures r.KbStats? ==>
              && r.isLoaded
              && r.totalMetiers == |s.metiers| && r.totalSecteurs == |s.secteurs|
              && r.totalCompetences == |s.competences| && r.totalFormations == |s.formations|
              && r.metiersForteDemande == |HighDemand(s)| && r.metiersCroissance == |WithGrowth(s)|
    ensures r.KbStats? ==> forall k :: 0 <= k < |s.secteurs| ==>
              r.secteursDisponibles[k] == s.secteurs[k].1.nomSecteur
  {
    if !s.isLoaded then SummaryError(NotLoadedMessage)
    else KbStats(|s.metiers|, |s.secteurs|, |s.competences|, |s.formations|,
                 |HighDemand(s)|, |WithGrowth(s)|, SectorNames(s.secteurs), s.isLoaded)
  }

  datatype ValidationReport = ValidationReport(
    isValid: bool,
    errors: seq<string>,
    warnings: seq<string>,
    statistics: KbSummary)

  function MetierWarnings(key: string, m: Metier): seq<string> {
    (if m.description == "" then ["Métier '" + key + "' sans description"] else [])
    + (if m.competencesTechniques == [] then ["Métier '" + key + "' sans compétences techniques"] else [])
  }

  /** The warnings for the first `n` occupations. */
  function MetierWarningsUpTo(t: Table<Metier>, n: nat): seq<string>
    requires n <= |t|
  {
    if n == 0 then [] else MetierWarningsUpTo(t, n - 1) + MetierWarnings(t[n - 1].0, t[n - 1].1)
  }

  function SecteurWarning(key: string, sec: Secteur): seq<string> {
    if sec.metiersAssocies == [] then ["Secteur '" + key + "' sans métiers associés"] else []
  }

  /** The warnings for the first `n` sectors. */
  function SecteurWarningsUpTo(t: Table<Secteur>, n: nat): seq<string>
    requires n <= |t|
  {
    if n == 0 then [] else SecteurWarningsUpTo(t, n - 1) + SecteurWarning(t[n - 1].0, t[n - 1].1)
  }

  /** `validate_knowledge_base`. */
  function Validation(s: Store): ValidationReport {
    if !s.isLoaded then ValidationReport(false, [NotLoadedMessage], [], Summary(s))
    else ValidationReport(true, [], MetierWarningsUpTo(s.metiers, |s.metiers|)
                                   + SecteurWarningsUpTo(s.secteurs, |s.secteurs|), Summary(s))
  }

  predicate LacksDescription(m: Metier) { m.description == "" }
  predicate LacksTechnicalSkills(m: Metier) { m.competencesTechniques == [] }
  predicate LacksOccupations(sec: Secteur) { sec.metiersAssocies == [] }

  lemma {:induction false} MetierWarningsCount(t: Table<Metier>, n: nat)
    requires n <= |t|
    ensures |MetierWarningsUpTo(t, n)|
         == |Filter(Values(t)[..n], LacksDescription)| + |Filter(Values(t)[..n], LacksTechnicalSkills)|
  {
    if n > 0 {
      MetierWarningsCount(t, n - 1);
      assert Values(t)[..n][..n - 1] == Values(t)[..n - 1];
    }
  }

  lemma {:induction false} SecteurWarningsCount(t: Table<Secteur>, n: nat)
    requires n <= |t|
    ensures |SecteurWarningsUpTo(t, n)| == |Filter(Values(t)[..n], LacksOccupations)|
  {
    if n > 0 {
      SecteurWarningsCount(t, n - 1);
      assert Values(t)[..n][..n - 1] == Values(t)[..n - 1];
    }
  }

  /** An unloaded store is invalid with one error; a loaded one stays valid and
      gets one warning per occupation without description, per occupation
      without technical skills and per sector without occupations. */
  lemma ValidationSpec(s: Store)
    ensures var r := Validation(s);
      r.statistics == Summary(s)
      && (!s.isLoaded ==> !r.isValid && |r.errors| == 1 && r.warnings == [])
      && (s.isLoaded ==>
            && r.isValid && r.errors == []
            && |r.warnings| == |Filter(Values(s.metiers), LacksDescription)|
                             + |Filter(Values(s.metiers), LacksTechnicalSkills)|
                             + |Filter(Values(s.secteurs), LacksOccupations)|)
  {
    MetierWarningsCount(s.metiers, |s.metiers|);
    SecteurWarningsCount(s.secteurs, |s.secteurs|);
    assert Values(s.metiers)[..|s.metiers|] == Values(s.metiers);
    assert Values(s.secteurs)[..|s.secteurs|] == Values(s.secteurs);
  }
}
