/** The knowledge-base manager as the object the application holds: four
    dictionaries and a loaded flag, filled in place by `LoadKnowledgeBase` and
    read by the query methods. Each method walks its tables with the loops of
    the original and is proved to return what the matching function of
    `KnowledgeBase` specifies for the current store. */
module KnowledgeBaseStore {
  import opened Common
  import opened Text
  import opened Tables
  import opened Ranking
  import opened KnowledgeBase

  /** The first entry whose key and `q` contain one another (the partial-match loop). */
  method FirstPartialMatch<V>(t: Table<V>, q: string) returns (r: Option<V>)
    ensures r == FirstPartialFrom(t, q, 0)
  {
    var i := 0;
    while i < |t|
      invariant 0 <= i <= |t|
      invariant FirstPartialFrom(t, q, 0) == FirstPartialFrom(t, q, i)
    {
      var (nom, v) := t[i];
      if Contains(q, nom) || Contains(nom, q) {
        return Some(v);
      }
      i := i + 1;
    }
    return None;
  }

  /** The first entry whose key contains one of `words` (the word-match loop). */
  method FirstWordMatch<V>(t: Table<V>, words: seq<string>) returns (r: Option<V>)
    ensures r == FirstWordMatchFrom(t, words, 0)
  {
    var i := 0;
    while i < |t|
      invariant 0 <= i <= |t|
      invariant FirstWordMatchFrom(t, words, 0) == FirstWordMatchFrom(t, words, i)
    {
      var (nom, v) := t[i];
      if AnyWordIn(words, nom) {
        return Some(v);
      }
      i := i + 1;
    }
    return None;
  }

  /** `for v in vs: d[key(v)] = v`, one assignment at a time. */
  method AssignAll<V>(t: Table<V>, vs: seq<V>, key: V -> string) returns (r: Table<V>)
    ensures r == PutAll(t, vs, key)
  {
    r := t;
    var i := 0;
    while i < |vs|
      invariant 0 <= i <= |vs|
      invariant r == PutAll(t, vs[..i], key)
    {
      var v := vs[i];
      assert vs[..i + 1][..i] == vs[..i];
      r := Put(r, key(v), v);
      i := i + 1;
    }
    assert vs[..i] == vs;
  }

  /** The four insertion loops of `load_knowledge_base`, then the loaded flag. */
  method LoadAll(s: Store, d: KnowledgeBaseData) returns (r: Store)
    ensures r == Loaded(s, d)
  {
    var m := AssignAll(s.metiers, d.metiers, MetierKey);
    var sec := AssignAll(s.secteurs, d.secteurs, SecteurKey);
    var c := AssignAll(s.competences, d.competences, CompetenceKey);
    var f := AssignAll(s.formations, d.formations, FormationKey);
    r := Store(m, sec, c, f, true);
  }

  /** The first loop of `validate_knowledge_base`: the occupations without a
      description or without technical skills. */
  method MetierWarningsOf(metiers: Table<Metier>) returns (warnings: seq<string>)
    ensures warnings == MetierWarningsUpTo(metiers, |metiers|)
  {
    warnings := [];
    var i := 0;
    while i < |metiers|
      invariant 0 <= i <= |metiers|
      invariant warnings == MetierWarningsUpTo(metiers, i)
    {
      var (nom, metier) := metiers[i];
      ghost var before := warnings;
      if metier.description == "" {
        warnings := warnings + ["Métier '" + nom + "' sans description"];
      }
      if metier.competencesTechniques == [] {
        warnings := warnings + ["Métier '" + nom + "' sans compétences techniques"];
      }
      assert warnings == before + MetierWarnings(nom, metier);
      i := i + 1;
    }
  }

  /** The second loop of `validate_knowledge_base`: the sectors without occupations. */
  method AddSecteurWarnings(warnings: seq<string>, secteurs: Table<Secteur>) returns (r: seq<string>)
    ensures r == warnings + SecteurWarningsUpTo(secteurs, |secteurs|)
  {
    r := warnings;
    var i := 0;
    while i < |secteurs|
      invariant 0 <= i <= |secteurs|
      invariant r == warnings + SecteurWarningsUpTo(secteurs, i)
    {
      var (nom, secteur) := secteurs[i];
      if secteur.metiersAssocies == [] {
        r := r + ["Secteur '" + nom + "' sans métiers associés"];
      }
      i := i + 1;
    }
  }

  /** The `(metier, score)` pairs with a positive keyword score, in table order. */
  method ScoreAll(t: Table<Metier>, keywordsLower: seq<string>) returns (found: seq<Ranked>)
    ensures found == KeywordCandidates(t, keywordsLower, |t|)
  {
    found := [];
    var i := 0;
    while i < |t|
      invariant 0 <= i <= |t|
      invariant found == KeywordCandidates(t, keywordsLower, i)
    {
      var score := ScoreMetier(t[i].1, keywordsLower);
      KeywordCandidatesNext(t, keywordsLower, i);
      if score > 0 {
        found := found + [Ranked(i, score)];
      }
      i := i + 1;
    }
  }

  /** The keyword score of one occupation, accumulated as the original does:
      2 per keyword in the description, then 1 per (skill, keyword) hit. */
  method ScoreMetier(m: Metier, keywordsLower: seq<string>) returns (score: nat)
    ensures score == KeywordScore(m, keywordsLower)
  {
    score := 0;
    var descriptionLower := Lower(m.description);
    var j := 0;
    while j < |keywordsLower|
      invariant 0 <= j <= |keywordsLower|
      invariant score == 2 * CountContained(keywordsLower[..j], descriptionLower)
    {
      assert keywordsLower[..j + 1][..j] == keywordsLower[..j];
      if Contains(descriptionLower, keywordsLower[j]) {
        score := score + 2;
      }
      j := j + 1;
    }
    assert keywordsLower[..j] == keywordsLower;
    var techniques := SkillScore(m.competencesTechniques, keywordsLower);
    var transversales := SkillScore(m.competencesTransversales, keywordsLower);
    score := score + techniques + transversales;
  }

  /** One point per skill containing a keyword, for every keyword. */
  method SkillScore(skills: seq<string>, keywordsLower: seq<string>) returns (score: nat)
    ensures score == SkillHits(skills, keywordsLower)
  {
    score := 0;
    var j := 0;
    while j < |skills|
      invariant 0 <= j <= |skills|
      invariant score == SkillHits(skills[..j], keywordsLower)
    {
      assert skills[..j + 1][..j] == skills[..j];
      var compLower := Lower(skills[j]);
      var l := 0;
      while l < |keywordsLower|
        invariant 0 <= l <= |keywordsLower|
        invariant score == SkillHits(skills[..j], keywordsLower) + CountContained(keywordsLower[..l], compLower)
      {
        assert keywordsLower[..l + 1][..l] == keywordsLower[..l];
        if Contains(compLower, keywordsLower[l]) {
          score := score + 1;
        }
        l := l + 1;
      }
      assert keywordsLower[..l] == keywordsLower;
      j := j + 1;
    }
    assert skills[..j] == skills;
  }

  class KnowledgeBaseManager {
    var metiers: Table<Metier>
    var secteurs: Table<Secteur>
    var competences: Table<Competence>
    var formations: Table<Formation>
    var isLoaded: bool

    /** The value of the object. */
    function Model(): Store
      reads this
    {
      Store(metiers, secteurs, competences, formations, isLoaded)
    }

    ghost predicate Valid()
      reads this
    {
      WellFormed(Model())
    }

    /** A new manager holds four empty tables and is not loaded. */
    constructor()
      ensures Valid()
      ensures Model() == Store([], [], [], [], false)
    {
      metiers := [];
      secteurs := [];
      competences := [];
      formations := [];
      isLoaded := false;
    }

    /** `load_knowledge_base`: a document that could not be read leaves the
        store as it was and answers false; otherwise every record is
        assigned under its lower-cased name, on top of the current content,
        and the store is marked loaded. */
    method LoadKnowledgeBase(document: Result<KnowledgeBaseData, string>) returns (ok: bool)
      requires Valid()
      modifies this
      ensures Valid()
      ensures ok <==> document.Success?
      ensures !ok ==> Model() == old(Model())
      ensures ok ==> Model() == Loaded(old(Model()), document.value)
    {
      if document.Failure? {
        return false;
      }
      LoadedWellFormed(Model(), document.value);
      var after := LoadAll(Model(), document.value);
      metiers, secteurs, competences, formations, isLoaded :=
        after.metiers, after.secteurs, after.competences, after.formations, after.isLoaded;
      return true;
    }

    /** `find_metier`: exact key, then partial match, then a shared word. */
    method FindMetier(nomMetier: string) returns (r: Option<Metier>)
      ensures r == KnowledgeBase.FindMetier(Model(), nomMetier)
    {
      if nomMetier == "" {
        return None;
      }
      var nomRecherche := Strip(Lower(nomMetier));
      r := Get(metiers, nomRecherche);
      if r.Some? {
        return;
      }
      r := FirstPartialMatch(metiers, nomRecherche);
      if r.Some? {
        return;
      }
      r := FirstWordMatch(metiers, Words(nomRecherche));
    }

    /** `find_secteur`: exact key, then partial match. */
    method FindSecteur(nomSecteur: string) returns (r: Option<Secteur>)
      ensures r == KnowledgeBase.FindSecteur(Model(), nomSecteur)
    {
      if nomSecteur == "" {
        return None;
      }
      var nomRecherche := Strip(Lower(nomSecteur));
      r := Get(secteurs, nomRecherche);
      if r.Some? {
        return;
      }
      r := FirstPartialMatch(secteurs, nomRecherche);
    }

    /** `get_metiers_by_secteur`: the sector's listed occupations that resolve. */
    method GetMetiersBySecteur(nomSecteur: string) returns (r: seq<Metier>)
      ensures r == MetiersBySecteur(Model(), nomSecteur)
    {
      var secteur := FindSecteur(nomSecteur);
      if secteur.None? {
        return [];
      }
      var names := secteur.value.metiersAssocies;
      r := [];
      var i := 0;
      while i < |names|
        invariant 0 <= i <= |names|
        invariant r == ResolveNames(metiers, names[..i])
      {
        var metier := FindMetier(names[i]);
        ResolveNamesNext(metiers, names, i);
        if metier.Some? {
          r := r + [metier.value];
        }
        i := i + 1;
      }
      assert names[..i] == names;
    }

    /** `get_metiers_high_demand`. */
    method GetMetiersHighDemand() returns (r: seq<Metier>)
      ensures r == HighDemand(Model())
    {
      var all := Values(metiers);
      r := [];
      var i := 0;
      while i < |all|
        invariant 0 <= i <= |all|
        invariant r == Filter(all[..i], IsHighDemand)
      {
        assert all[..i + 1][..i] == all[..i];
        if Lower(all[i].niveauDemandeMarche) == "élevé" {
          r := r + [all[i]];
        }
        i := i + 1;
      }
      assert all[..i] == all;
    }

    /** `get_metiers_with_growth`. */
    method GetMetiersWithGrowth() returns (r: seq<Metier>)
      ensures r == WithGrowth(Model())
    {
      var all := Values(metiers);
      r := [];
      var i := 0;
      while i < |all|
        invariant 0 <= i <= |all|
        invariant r == Filter(all[..i], HasGrowth)
      {
        assert all[..i + 1][..i] == all[..i];
        if all[i].perspectivesCroissance {
          r := r + [all[i]];
        }
        i := i + 1;
      }
      assert all[..i] == all;
    }

    /** `find_similar_metiers`: score every other occupation, keep the
        positive scores, sort them stably by descending score and keep the
        first `maxResults`. */
    method FindSimilarMetiers(reference: Metier, maxResults: int) returns (r: seq<Metier>)
      ensures r == SimilarMetiers(Model(), reference, maxResults)
    {
      var similaires: seq<Ranked> := [];
      var i := 0;
      while i < |metiers|
        invariant 0 <= i <= |metiers|
        invariant similaires == SimilarCandidates(metiers, reference, i)
      {
        var metier := metiers[i].1;
        if metier.nomMetier != reference.nomMetier {
          var score := SimilarityScore2(metier, reference);
          if score > 0 {
            similaires := similaires + [Ranked(i, score)];
          }
        }
        i := i + 1;
      }
      var kept := SlicePrefix(SortDesc(similaires), maxResults);
      assert kept == SimilarRanking(Model(), reference, maxResults);
      r := ItemsAt(metiers, kept);
    }

    /** `get_formations_for_metier`. */
    method GetFormationsForMetier(nomMetier: string) returns (r: seq<Formation>)
      ensures r == FormationsFor(Model(), nomMetier)
    {
      r := [];
      var i := 0;
      while i < |formations|
        invariant 0 <= i <= |formations|
        invariant r == FormationsForUpTo(formations, nomMetier, i)
      {
        var formation := formations[i].1;
        if PreparesFor(formation, nomMetier) {
          r := r + [formation];
        }
        i := i + 1;
      }
    }

    /** `analyze_filiere_metier_compatibility`. */
    method AnalyzeFiliereMetierCompatibility(filiere: string, metierEnvisage: string) returns (r: Compatibility)
      ensures r == CompatibilityOf(Model(), filiere, metierEnvisage)
    {
      var found := FindMetier(metierEnvisage);
      if found.None? {
        return NotFound;
      }
      var metier := found.value;
      var typiques := metier.formationsTypiques;
      var matching: seq<string> := [];
      var i := 0;
      while i < |typiques|
        invariant 0 <= i <= |typiques|
        invariant matching == MatchingFormations(typiques[..i], filiere)
      {
        assert typiques[..i + 1][..i] == typiques[..i];
        if Contains(Lower(typiques[i]), Lower(filiere)) || Contains(Lower(filiere), Lower(typiques[i])) {
          matching := matching + [typiques[i]];
        }
        i := i + 1;
      }
      assert typiques[..i] == typiques;
      var score := if matching != [] then 8 else if metier.competencesTransversales != [] then 5 else 2;
      var gaps := if matching == [] then metier.competencesTechniques else [];
      var recommendation := if score >= 7 then ExcellentFit else if score >= 5 then AdequateFit else LowFit;
      r := Compatibility(true, Some(metier), score, matching, gaps, [recommendation]);
    }

    /** `get_secteurs_porteurs`: every sector, in store order. */
    method GetSecteursPorteurs() returns (r: seq<Secteur>)
      ensures r == SecteursPorteurs(Model())
      ensures |r| == |secteurs| && forall k :: 0 <= k < |r| ==> r[k] == secteurs[k].1
    {
      r := Values(secteurs);
    }

    /** `get_knowledge_base_summary`. */
    method GetKnowledgeBaseSummary() returns (r: KbSummary)
      ensures r == Summary(Model())
    {
      if !isLoaded {
        return SummaryError(NotLoadedMessage);
      }
      var forteDemande := GetMetiersHighDemand();
      var croissance := GetMetiersWithGrowth();
      r := KbStats(|metiers|, |secteurs|, |competences|, |formations|,
                   |forteDemande|, |croissance|, SectorNames(secteurs), isLoaded);
    }

    /** `search_metiers_by_keywords`. */
    method SearchMetiersByKeywords(keywords: seq<string>) returns (r: seq<Metier>)
      ensures r == KeywordSearch(Model(), keywords)
    {
      if keywords == [] {
        return [];
      }
      var keywordsLower := LowerAll(keywords);
      var found := ScoreAll(metiers, keywordsLower);
      var sorted := SortDesc(found);
      assert sorted == KeywordRanking(Model(), keywords);
      r := ItemsAt(metiers, sorted);
    }

    /** `validate_knowledge_base`. */
    method ValidateKnowledgeBase() returns (r: ValidationReport)
      ensures r == Validation(Model())
    {
      var statistics := GetKnowledgeBaseSummary();
      if !isLoaded {
        return ValidationReport(false, [NotLoadedMessage], [], statistics);
      }
      var warnings := MetierWarningsOf(metiers);
      warnings := AddSecteurWarnings(warnings, secteurs);
      r := ValidationReport(true, [], warnings, statistics);
    }
  }
}
