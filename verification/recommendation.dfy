/** The recommendation pipeline: the profile analysis drawn from the knowledge
    base, the prompt text, the retry policy around the language-model call,
    the section scanner that splits the model's reply into four parts, and
    the assembly of the final recommendation. The model call is an input:
    a function from the prompt and the attempt number to what that attempt
    produced. */
module Recommendation {
  import opened Common
  import opened Text
  import opened Tables
  import opened KnowledgeBase
  import opened KnowledgeBaseStore

  const MaxRetries: nat := 3
  const RetryDelay: nat := 2

  // ---------------------------------------------------------------------------
  // Section scanner

  datatype SectionKey = AnalysisKey | AdequacyKey | AlternativesKey | PathKey

  /** The four parts of a structured reply; every part is always present. */
  datatype Sections = Sections(analysis: string, adequacyLevel: string, alternativeCareers: string, personalizedPath: string)

  const EmptySections := Sections("", "", "", "")

  /** The position of a section in the pattern table, which is the order headers are tried in. */
  function Rank(k: SectionKey): nat {
    match k
    case AnalysisKey => 0
    case AdequacyKey => 1
    case AlternativesKey => 2
    case PathKey => 3
  }

  /** The header patterns of each section, most specific first. */
  function Patterns(k: SectionKey): (r: seq<string>)
    ensures |r| == 3 && forall i :: 0 <= i < 3 ==> r[i] != ""
  {
    match k
    case AnalysisKey => ["1. ÉVALUATION DU CHOIX INITIAL", "ÉVALUATION DU CHOIX", "ANALYSE"]
    case AdequacyKey => ["2. NIVEAU D'ADÉQUATION", "NIVEAU D'ADÉQUATION", "ADÉQUATION"]
    case AlternativesKey => ["3. CARRIÈRES ALTERNATIVES", "CARRIÈRES ALTERNATIVES", "ALTERNATIVES"]
    case PathKey => ["4. PARCOURS PERSONNALISÉ", "PARCOURS PERSONNALISÉ", "PARCOURS"]
  }

  /** Some pattern of `k` occurs in the upper-cased line. */
  predicate Announces(k: SectionKey, upperLine: string) {
    exists p :: p in Patterns(k) && Contains(upperLine, p)
  }

  /** The section an upper-cased line announces: the first one, in table
      order, one of whose patterns occurs in it. */
  function SectionOf(u: string): (r: Option<SectionKey>)
    ensures r.Some? ==> Announces(r.value, u)
    ensures r.Some? ==> forall k :: Rank(k) < Rank(r.value) ==> !Announces(k, u)
    ensures r.None? <==> forall k :: !Announces(k, u)
  {
    if Announces(AnalysisKey, u) then Some(AnalysisKey)
    else if Announces(AdequacyKey, u) then Some(AdequacyKey)
    else if Announces(AlternativesKey, u) then Some(AlternativesKey)
    else if Announces(PathKey, u) then Some(PathKey)
    else None
  }

  /** The section a line opens, judged on the upper-cased line. */
  function HeaderOf(line: string): Option<SectionKey> {
    SectionOf(Upper(line))
  }

  /** The first pattern of the list that occurs in `u`. */
  function FirstPatternIn(u: string, ps: seq<string>): (r: Option<string>)
    ensures r.Some? ==> exists k :: 0 <= k < |ps| && ps[k] == r.value && Contains(u, ps[k])
                                     && forall j :: 0 <= j < k ==> !Contains(u, ps[j])
    ensures r.None? <==> forall p :: p in ps ==> !Contains(u, p)
  {
    if ps == [] then None
    else if Contains(u, ps[0]) then Some(ps[0])
    else
      var r := FirstPatternIn(u, ps[1..]);
      assert r.Some? ==> exists k :: 0 <= k < |ps| && ps[k] == r.value && Contains(u, ps[k])
                                     && forall j :: 0 <= j < k ==> !Contains(u, ps[j]) by {
        if r.Some? {
          var k :| 0 <= k < |ps[1..]| && ps[1..][k] == r.value && Contains(u, ps[1..][k])
                   && forall j :: 0 <= j < k ==> !Contains(u, ps[1..][j]);
          forall j | 0 <= j < k + 1 ensures !Contains(u, ps[j]) {
            if j > 0 {
              assert ps[j] == ps[1..][j - 1];
            }
          }
          assert ps[k + 1] == r.value;
        }
      }
      r
  }

  /** The stripped text after the first pattern of `k` found in the line, or
      the line itself. The position is taken in the upper-cased line and
      applied to the line, and a slice that starts past the end is empty. */
  function ContentAfterTitle(line: string, k: SectionKey): (r: string)
    ensures r == line || |r| < |line|
  {
    var u := Upper(line);
    var title := FirstPatternIn(u, Patterns(k));
    if title.Some? then
      assert title.value in Patterns(k);
      RestAfterShorter(line, u, title.value);
      Strip(RestAfter(line, u, title.value))
    else
      line
  }

  /** The part of `line` after the first occurrence, in `u`, of `p`. */
  function RestAfter(line: string, u: string, p: string): string
    requires Contains(u, p)
  {
    SliceFrom(line, Find(u, p) + |p|)
  }

  /** The line itself exactly when no pattern of `k` occurs in its upper case;
      otherwise the found pattern occurs there, first at the position `find`
      reports. */
  lemma ContentAfterTitleSpec(line: string, k: SectionKey)
    ensures var m := FirstPatternIn(Upper(line), Patterns(k));
      (ContentAfterTitle(line, k) == line <==> m.None?)
      && (m.Some? ==> FirstOccursAt(Upper(line), m.value, Find(Upper(line), m.value)))
  {
    var u, ps := Upper(line), Patterns(k);
    var m := FirstPatternIn(u, ps);
    if m.Some? {
      var n :| 0 <= n < |ps| && ps[n] == m.value && Contains(u, ps[n]);
      FindIsFirst(u, m.value);
      RestAfterShorter(line, u, m.value);
      assert ContentAfterTitle(line, k) == Strip(RestAfter(line, u, m.value));
    }
  }

  /** With `p` the pattern found and `at` its first occurrence in the upper
      case, the result is the stripped rest of the line after `at + |p|`. */
  lemma ContentAfterFirstTitle(line: string, k: SectionKey, p: string, at: int)
    requires FirstPatternIn(Upper(line), Patterns(k)) == Some(p)
    requires FirstOccursAt(Upper(line), p, at)
    ensures ContentAfterTitle(line, k) == Strip(SliceFrom(line, at + |p|))
  {
    var ps := Patterns(k);
    var n :| 0 <= n < |ps| && ps[n] == p && Contains(Upper(line), ps[n]);
    RestAfterFirst(line, Upper(line), p, at);
  }

  /** The rest is taken after the first occurrence. */
  lemma RestAfterFirst(line: string, u: string, p: string, at: int)
    requires FirstOccursAt(u, p, at)
    ensures Contains(u, p) && RestAfter(line, u, p) == SliceFrom(line, at + |p|)
  {
    FirstIsFind(u, p, at);
  }

  /** With a title, the result loses at least the title. */
  lemma RestAfterShorter(line: string, u: string, p: string)
    requires p != "" && Contains(u, p) && |u| <= 2 * |line|
    ensures |Strip(RestAfter(line, u, p))| < |line|
  {
    assert OccursAt(u, p, Find(u, p));
  }

  /** On a line without a sharp s, upper-casing keeps positions, so the first
      occurrence of the title in the upper case is the title in the line
      itself, followed by the text that opens the section. */
  lemma TitleInLine(line: string, k: SectionKey, p: string, at: int)
    requires forall c :: 0 <= c < |line| ==> line[c] != 'ß'
    requires FirstPatternIn(Upper(line), Patterns(k)) == Some(p)
    requires FirstOccursAt(Upper(line), p, at)
    ensures at + |p| <= |line| && Upper(line[at..at + |p|]) == p
    ensures ContentAfterTitle(line, k) == Strip(line[at + |p|..])
  {
    ContentAfterFirstTitle(line, k, p, at);
    TitleInUnsharpLine(line, Upper(line), p, at);
    assert SliceFrom(line, at + |p|) == line[at + |p|..];
  }

  /** Upper-casing a line without a sharp s keeps its length, so an
      occurrence in the upper case is an upper-cased slice of the line. */
  lemma TitleInUnsharpLine(line: string, u: string, p: string, at: int)
    requires forall c :: 0 <= c < |line| ==> line[c] != 'ß'
    requires u == Upper(line)
    requires OccursAt(u, p, at)
    ensures at + |p| <= |line| && Upper(line[at..at + |p|]) == p
  {
    var j := at + |p|;
    assert |u| == |line| && j <= |line|;
    UpperSlice(line, at, j);
    assert u[at..j] == p;
  }

  function GetSection(s: Sections, k: SectionKey): string {
    match k
    case AnalysisKey => s.analysis
    case AdequacyKey => s.adequacyLevel
    case AlternativesKey => s.alternativeCareers
    case PathKey => s.personalizedPath
  }

  function SetSection(s: Sections, k: SectionKey, v: string): (r: Sections)
    ensures GetSection(r, k) == v
    ensures forall j :: j != k ==> GetSection(r, j) == GetSection(s, j)
  {
    match k
    case AnalysisKey => s.(analysis := v)
    case AdequacyKey => s.(adequacyLevel := v)
    case AlternativesKey => s.(alternativeCareers := v)
    case PathKey => s.(personalizedPath := v)
  }

  predicate AllEmpty(s: Sections) {
    s.analysis == "" && s.adequacyLevel == "" && s.alternativeCareers == "" && s.personalizedPath == ""
  }

  /** `sections`, `current_section` and `current_content` between two lines. */
  datatype ScanState = ScanState(sections: Sections, current: Option<SectionKey>, content: seq<string>)

  const Start := ScanState(EmptySections, None, [])

  /** The sections once the open one is saved, when it has content. */
  function Flush(st: ScanState): Sections {
    if st.current.Some? && st.content != [] then SetSection(st.sections, st.current.value, Strip(Join("\n", st.content)))
    else st.sections
  }

  /** A header line of section `k` saves the open section and opens `k`,
      keeping the text after the title when there is any. */
  function OnHeader(st: ScanState, line: string, k: SectionKey): ScanState {
    var after := ContentAfterTitle(line, k);
    ScanState(Flush(st), Some(k), if after != "" && after != line then [after] else [])
  }

  /** Any other non-blank line joins the open section, if there is one. */
  function OnBody(st: ScanState, line: string): ScanState {
    if st.current.Some? then st.(content := st.content + [line]) else st
  }

  /** What one line of the reply does to the scanner. */
  function Step(st: ScanState, rawLine: string): ScanState {
    var line := Strip(rawLine);
    if line == "" then st
    else
      match HeaderOf(line)
      case Some(k) => OnHeader(st, line, k)
      case None => OnBody(st, line)
  }

  /** A left fold of a line-by-line step over the lines. */
  function Fold<S>(step: (S, string) -> S, st: S, lines: seq<string>): S {
    if lines == [] then st else step(Fold(step, st, lines[..|lines| - 1]), lines[|lines| - 1])
  }

  /** Folding over two runs of lines is folding over the first, then the second. */
  lemma {:induction false} FoldAppend<S>(step: (S, string) -> S, st: S, a: seq<string>, b: seq<string>)
    ensures Fold(step, st, a + b) == Fold(step, Fold(step, st, a), b)
  {
    if b == [] {
      assert a + b == a;
    } else {
      var init := b[..|b| - 1];
      assert (a + b)[..|a + b| - 1] == a + init;
      FoldAppend(step, st, a, init);
    }
  }

  lemma FoldSnoc<S>(step: (S, string) -> S, st: S, lines: seq<string>, line: string)
    ensures Fold(step, st, lines + [line]) == step(Fold(step, st, lines), line)
  {
    assert (lines + [line])[..|lines|] == lines;
  }

  /** The scanner after the given lines. */
  function ScanFrom(st: ScanState, lines: seq<string>): ScanState {
    Fold(Step, st, lines)
  }

  /** `_parse_ai_sections`: scan the lines, save the last section, and fall
      back to the whole reply as the analysis when every section is empty. */
  function ParseSections(aiResponse: string): (r: Sections)
    ensures aiResponse != "" ==> !AllEmpty(r)
  {
    var scanned := Flush(ScanFrom(Start, SplitOn(aiResponse, '\n')));
    if AllEmpty(scanned) then scanned.(analysis := aiResponse) else scanned
  }

  /** A line containing "ANALYSE" in upper case opens the analysis section,
      whatever other patterns it contains. */
  lemma AnalyseHeaderWins(line: string)
    requires Contains(Upper(line), "ANALYSE")
    ensures HeaderOf(line) == Some(AnalysisKey)
  {
    assert "ANALYSE" in Patterns(AnalysisKey);
  }

  /** Upper-casing can lengthen a line: "PARCOURß" becomes "PARCOURSS", which
      contains "PARCOURS", so the line opens a section. */
  lemma SharpSHeader()
    ensures Upper("PARCOURß") == "PARCOURSS"
    ensures HeaderOf("PARCOURß").Some?
  {
    var line := "PARCOURß";
    assert line[..|line| - 1] == "PARCOUR";
    UpperUnchanged("PARCOUR");
    ContainsPrefix("PARCOURSS", "PARCOURS");
    assert "PARCOURS" in Patterns(PathKey);
  }

  /** Scanning two runs of lines is scanning the first, then the second. */
  lemma ScanAppend(st: ScanState, a: seq<string>, b: seq<string>)
    ensures ScanFrom(st, a + b) == ScanFrom(ScanFrom(st, a), b)
  {
    FoldAppend(Step, st, a, b);
  }

  /** A line that is not a header (blank or not) leaves a scanner with no open section untouched. */
  predicate NotHeader(line: string) {
    Strip(line) == "" || HeaderOf(Strip(line)).None?
  }

  lemma {:induction false} PreambleKeepsStart(pre: seq<string>)
    requires forall i :: 0 <= i < |pre| ==> NotHeader(pre[i])
    ensures ScanFrom(Start, pre) == Start
  {
    if pre != [] {
      PreambleKeepsStart(pre[..|pre| - 1]);
    }
  }

  /** Lines before the first header are discarded. */
  lemma PreambleDiscarded(pre: seq<string>, rest: seq<string>)
    requires forall i :: 0 <= i < |pre| ==> NotHeader(pre[i])
    ensures ScanFrom(Start, pre + rest) == ScanFrom(Start, rest)
  {
    ScanAppend(Start, pre, rest);
    PreambleKeepsStart(pre);
  }

  /** A blank line changes nothing, wherever it appears. */
  lemma BlankLineDiscarded(st: ScanState, a: seq<string>, blank: string, b: seq<string>)
    requires Strip(blank) == ""
    ensures ScanFrom(st, a + [blank] + b) == ScanFrom(st, a + b)
  {
    ScanAppend(st, a + [blank], b);
    ScanAppend(st, a, b);
    assert (a + [blank])[..|a|] == a;
  }

  function StripAll(lines: seq<string>): (r: seq<string>)
    ensures |r| == |lines| && forall i :: 0 <= i < |lines| ==> r[i] == Strip(lines[i])
  {
    if lines == [] then [] else StripAll(lines[..|lines| - 1]) + [Strip(lines[|lines| - 1])]
  }

  /** A line of text: neither blank nor a header. */
  predicate BodyLine(line: string) {
    Strip(line) != "" && HeaderOf(Strip(line)).None?
  }

  /** Under an open section, body lines are appended to its content, stripped. */
  lemma {:induction false} BodyAccumulates(st: ScanState, body: seq<string>)
    requires st.current.Some?
    requires forall i :: 0 <= i < |body| ==> BodyLine(body[i])
    ensures ScanFrom(st, body) == st.(content := st.content + StripAll(body))
  {
    if body != [] {
      var init, last := body[..|body| - 1], body[|body| - 1];
      forall i | 0 <= i < |init|
        ensures BodyLine(init[i])
      {
        assert init[i] == body[i];
      }
      BodyAccumulates(st, init);
      assert ScanFrom(st, body) == Step(ScanFrom(st, init), last);
      BodyStep(ScanFrom(st, init), last);
      assert StripAll(body) == StripAll(init) + [Strip(last)];
      AppendAssoc(st.content, StripAll(init), [Strip(last)]);
    }
  }

  lemma AppendAssoc(a: seq<string>, b: seq<string>, c: seq<string>)
    ensures (a + b) + c == a + (b + c)
  {
  }

  /** One body line under an open section is appended, stripped. */
  lemma BodyStep(st: ScanState, line: string)
    requires st.current.Some? && BodyLine(line)
    ensures Step(st, line) == st.(content := st.content + [Strip(line)])
  {
  }

  /** What a header line starts its section with. */
  function HeaderContent(line: string): seq<string>
    requires HeaderOf(line).Some?
  {
    var after := ContentAfterTitle(line, HeaderOf(line).value);
    if after != "" && after != line then [after] else []
  }

  /** The last block of a section wins: a header for section `k` followed by
      body lines sets `k` to that block's text, whatever came before. */
  lemma LaterBlockOverwrites(st: ScanState, header: string, body: seq<string>, k: SectionKey)
    requires Strip(header) != "" && HeaderOf(Strip(header)) == Some(k)
    requires forall i :: 0 <= i < |body| ==> BodyLine(body[i])
    requires HeaderContent(Strip(header)) + StripAll(body) != []
    ensures GetSection(Flush(ScanFrom(st, [header] + body)), k)
         == Strip(Join("\n", HeaderContent(Strip(header)) + StripAll(body)))
  {
    ScanAppend(st, [header], body);
    assert [header][..0] == [];
    var afterHeader := ScanFrom(st, [header]);
    assert afterHeader.current == Some(k) && afterHeader.content == HeaderContent(Strip(header));
    BodyAccumulates(afterHeader, body);
  }

  /** When scanning finds some text the result is what the scan saved; only
      an all-empty scan falls back to the whole reply. */
  lemma FallbackOnlyWhenEmpty(aiResponse: string)
    ensures var scanned := Flush(ScanFrom(Start, SplitOn(aiResponse, '\n')));
      (AllEmpty(scanned) ==> ParseSections(aiResponse) == EmptySections.(analysis := aiResponse))
      && (!AllEmpty(scanned) ==> ParseSections(aiResponse) == scanned)
  {
  }

  /** Scanning one more line of the reply is one more step. */
  lemma ScanNext(lines: seq<string>, i: nat)
    requires i < |lines|
    ensures ScanFrom(Start, lines[..i + 1]) == Step(ScanFrom(Start, lines[..i]), lines[i])
  {
    assert lines[..i + 1] == lines[..i] + [lines[i]];
    FoldSnoc(Step, Start, lines[..i], lines[i]);
  }

  /** The body of the scanning loop: one line of the reply. */
  method ScanLine(sections: Sections, currentSection: Option<SectionKey>, currentContent: seq<string>, rawLine: string)
    returns (sections': Sections, currentSection': Option<SectionKey>, currentContent': seq<string>)
    ensures ScanState(sections', currentSection', currentContent')
         == Step(ScanState(sections, currentSection, currentContent), rawLine)
  {
    ghost var st := ScanState(sections, currentSection, currentContent);
    sections', currentSection', currentContent' := sections, currentSection, currentContent;
    var line := Strip(rawLine);
    if line != "" {
      var sectionFound := HeaderOf(line);
      if sectionFound.Some? {
        assert Step(st, rawLine) == OnHeader(st, line, sectionFound.value);
        if currentSection.Some? && currentContent != [] {
          sections' := SetSection(sections, currentSection.value, Strip(Join("\n", currentContent)));
        }
        currentSection' := sectionFound;
        currentContent' := [];
        var contentAfterTitle := ContentAfterTitle(line, sectionFound.value);
        if contentAfterTitle != "" && contentAfterTitle != line {
          currentContent' := currentContent' + [contentAfterTitle];
        }
      } else {
        assert Step(st, rawLine) == OnBody(st, line);
        if currentSection.Some? {
          currentContent' := currentContent + [line];
        }
      }
    }
  }

  /** The loop of `_parse_ai_sections` over the lines of the reply. */
  method ScanLines(lines: seq<string>) returns (sections: Sections, currentSection: Option<SectionKey>, currentContent: seq<string>)
    ensures ScanState(sections, currentSection, currentContent) == ScanFrom(Start, lines)
  {
    sections := EmptySections;
    currentSection := None;
    currentContent := [];
    var i := 0;
    while i < |lines|
      invariant 0 <= i <= |lines|
      invariant ScanState(sections, currentSection, currentContent) == ScanFrom(Start, lines[..i])
    {
      ScanNext(lines, i);
      sections, currentSection, currentContent := ScanLine(sections, currentSection, currentContent, lines[i]);
      i := i + 1;
    }
    assert lines[..i] == lines;
  }

  /** `_parse_ai_sections`: scan, save the section still open, fall back to
      the whole reply. */
  method ParseAiSections(aiResponse: string) returns (sections: Sections)
    ensures sections == ParseSections(aiResponse)
  {
    var lines := SplitOn(aiResponse, '\n');
    var currentSection, currentContent;
    sections, currentSection, currentContent := ScanLines(lines);
    if currentSection.Some? && currentContent != [] {
      sections := SetSection(sections, currentSection.value, Strip(Join("\n", currentContent)));
    }
    if AllEmpty(sections) {
      sections := sections.(analysis := aiResponse);
    }
  }

  // ---------------------------------------------------------------------------
  // Profile analysis

  datatype ProfileAnalysis = ProfileAnalysis(
    filiereActuelle: string,
    carriereEnvisagee: string,
    metierTrouve: Option<Metier>,
    compatibilityAnalysis: Option<Compatibility>,
    alternativeCareers: seq<Metier>,
    secteurRecommendations: seq<Secteur>)

  /** `_analyze_student_profile` over the current store. */
  function AnalyzeProfile(s: Store, student: StudentRecord): (r: ProfileAnalysis)
    ensures r.filiereActuelle == GetOr(student, "Filière Actuelle", "")
    ensures r.carriereEnvisagee == GetOr(student, "Carrière Envisagée", "")
    ensures r.metierTrouve.Some? <==> r.carriereEnvisagee != "" && FindMetier(s, r.carriereEnvisagee).Some?
    ensures r.metierTrouve.Some? ==> r.metierTrouve == FindMetier(s, r.carriereEnvisagee)
    ensures r.compatibilityAnalysis.Some? <==> r.metierTrouve.Some?
    ensures r.compatibilityAnalysis.Some? ==> r.compatibilityAnalysis.value.metierTrouve
    ensures |r.alternativeCareers| <= 3 && (r.metierTrouve.None? ==> r.alternativeCareers == [])
    ensures |r.secteurRecommendations| == if |s.secteurs| < 3 then |s.secteurs| else 3
    ensures r.secteurRecommendations == Values(s.secteurs)[..|r.secteurRecommendations|]
  {
    var filiere := GetOr(student, "Filière Actuelle", "");
    var carriere := GetOr(student, "Carrière Envisagée", "");
    var found := if carriere != "" then FindMetier(s, carriere) else None;
    var alternatives :=
      if found.Some? then
        SimilarMetiersSpec(s, found.value, 3);
        SimilarMetiers(s, found.value, 3)
      else [];
    ProfileAnalysis(
      filiere, carriere, found,
      if found.Some? then Some(CompatibilityOf(s, filiere, carriere)) else None,
      alternatives,
      SlicePrefix(SecteursPorteurs(s), 3))
  }

  // ---------------------------------------------------------------------------
  // Prompt

  function StudentHeader(student: StudentRecord): string {
    "Tu es un conseiller en orientation professionnelle "
    + "spécialisé dans le marché du travail béninois. \n"
    + "Analyse le profil de cet étudiant et fournis "
    + "des recommandations détaillées.\n\n"
    + "PROFIL ÉTUDIANT:\n"
    + "- Nom: " + GetOr(student, "Nom", "N/A") + " " + GetOr(student, "Prénom", "N/A") + "\n"
    + "- Filière actuelle: " + GetOr(student, "Filière Actuelle", "N/A") + "\n"
    + "- Carrière envisagée: " + GetOr(student, "Carrière Envisagée", "N/A") + "\n"
    + "- Lieu de naissance: " + GetOr(student, "Lieu de Naissance", "N/A") + "\n\n"
    + "CONTEXTE MARCHÉ DU TRAVAIL BÉNINOIS:\n"
  }

  function OccupationBlock(a: ProfileAnalysis): string {
    match a.metierTrouve
    case None => ""
    case Some(m) =>
      "\nMÉTIER ENVISAGÉ - " + m.nomMetier + ":\n"
      + "- Description: " + m.description + "\n"
      + "- Secteur: " + m.secteurActivite + "\n"
      + "- Niveau de demande: " + m.niveauDemandeMarche + "\n"
      + "- Perspectives de croissance: " + (if m.perspectivesCroissance then "Excellentes" else "Limitées") + "\n"
      + "- Compétences techniques requises: " + Join(", ", m.competencesTechniques) + "\n"
      + "- Compétences transversales: " + Join(", ", m.competencesTransversales) + "\n"
      + "- Formations typiques: " + Join(", ", m.formationsTypiques) + "\n"
      + "- Pertinence pour le Bénin: " + m.pertinenceBenin + "\n"
  }

  function CompatibilityBlock(a: ProfileAnalysis): string {
    match a.compatibilityAnalysis
    case None => ""
    case Some(c) =>
      "\nANALYSE DE COMPATIBILITÉ:\n"
      + "- Score de compatibilité: " + IntToDecimal(c.compatibilityScore) + "/10\n"
      + "- Formations correspondantes: "
      + (if c.formationsMatching != [] then Join(", ", c.formationsMatching) else "Aucune correspondance directe") + "\n"
      + "- Lacunes de compétences identifiées: "
      + (if c.competencesGaps != [] then Join(", ", c.competencesGaps) else "Aucune lacune majeure") + "\n"
  }

  /** One alternative, its description cut to 100 characters. */
  function AlternativeLine(m: Metier): string {
    "- " + m.nomMetier + ": " + SlicePrefix(m.description, 100) + "... (Demande: " + m.niveauDemandeMarche + ")\n"
  }

  function AlternativeLines(ms: seq<Metier>): string {
    if ms == [] then "" else AlternativeLines(ms[..|ms| - 1]) + AlternativeLine(ms[|ms| - 1])
  }

  const AlternativesTitle := "\nMÉTIERS ALTERNATIFS SIMILAIRES:\n"

  function AlternativesBlock(a: ProfileAnalysis): string {
    if a.alternativeCareers == [] then "" else AlternativesTitle + AlternativeLines(a.alternativeCareers)
  }

  /** One sector, its description cut to 100 characters. */
  function SectorLine(sec: Secteur): string {
    "- " + sec.nomSecteur + ": " + SlicePrefix(sec.description, 100) + "...\n"
  }

  function SectorLines(secs: seq<Secteur>): string {
    if secs == [] then "" else SectorLines(secs[..|secs| - 1]) + SectorLine(secs[|secs| - 1])
  }

  const SectorsTitle := "\nSECTEURS PORTEURS AU BÉNIN:\n"

  function SectorsBlock(a: ProfileAnalysis): string {
    if a.secteurRecommendations == [] then "" else SectorsTitle + SectorLines(a.secteurRecommendations)
  }

  /** The instruction block that closes every prompt, line by line; it asks
      for the four numbered sections that the reply scanner looks for. */
  const InstructionLines: seq<string> := [
    "",
    "",
    "INSTRUCTIONS:",
    "Fournis une analyse structurée en 4 sections:",
    "",
    "1. ÉVALUATION DU CHOIX INITIAL (2-3 phrases)",
    "   - Évalue l'adéquation entre la filière "
      + "actuelle et la carrière envisagée",
    "   - Mentionne les opportunités et défis "
      + "potentiels",
    "",
    "2. NIVEAU D'ADÉQUATION (1-2 phrases)",
    "   - Donne une évaluation claire: "
      + "Excellente/Bonne/Moyenne/Faible adéquation",
    "   - Justifie brièvement",
    "",
    "3. CARRIÈRES ALTERNATIVES (si pertinent, 2-3 "
      + "suggestions max)",
    "   - Suggère des alternatives uniquement si "
      + "l'adéquation est moyenne/faible",
    "   - Privilégie les métiers à forte demande "
      + "mentionnés ci-dessus",
    "",
    "4. PARCOURS PERSONNALISÉ (5-6 points concrets)",
    "   - Formations complémentaires spécifiques",
    "   - Compétences clés à développer (avec "
      + "emphase sur le numérique si pertinent)",
    "   - Certifications utiles",
    "   - Conseils pour l'insertion professionnelle "
      + "au Bénin",
    "   - Opportunités d'entrepreneuriat si "
      + "applicable",
    "   - Étapes chronologiques recommandées",
    "",
    "Adapte tes recommandations au contexte "
      + "béninois: marché local, économie numérique "
      + "émergente, secteurs porteurs comme "
      + "l'agro-industrie, le tourisme, et l'économie "
      + "verte.",
    "Sois concret, pratique et encourageant.",
    ""
  ]

  const Instructions := Join("\n", InstructionLines)

  /** `_build_deepseek_prompt`: the student header, then the blocks the
      analysis calls for (the others are empty), then the fixed instructions;
      the prompt opens with the header, closes with the instructions and
      contains each block. */
  function PromptText(student: StudentRecord, a: ProfileAnalysis): (r: string)
    ensures StartsWith(r, StudentHeader(student)) && EndsWith(r, Instructions)
    ensures Contains(r, OccupationBlock(a)) && Contains(r, CompatibilityBlock(a))
    ensures Contains(r, AlternativesBlock(a)) && Contains(r, SectorsBlock(a))
  {
    Assemble(StudentHeader(student), OccupationBlock(a), CompatibilityBlock(a),
             AlternativesBlock(a), SectorsBlock(a), Instructions)
  }

  /** Six pieces appended in order: the text begins with the first, ends with
      the last and contains each of the others. */
  function Assemble(p0: string, p1: string, p2: string, p3: string, p4: string, p5: string): (r: string)
    ensures |r| >= |p0| + |p5|
    ensures StartsWith(r, p0) && EndsWith(r, p5)
    ensures Contains(r, p1) && Contains(r, p2) && Contains(r, p3) && Contains(r, p4)
  {
    var parts := [p0, p1, p2, p3, p4, p5];
    ConcatSix(p0, p1, p2, p3, p4, p5);
    ConcatEnds(parts);
    ConcatHasPart(parts, 1);
    ConcatHasPart(parts, 2);
    ConcatHasPart(parts, 3);
    ConcatHasPart(parts, 4);
    p0 + p1 + p2 + p3 + p4 + p5
  }

  lemma {:induction false} AlternativeLinesContain(ms: seq<Metier>, m: Metier)
    requires m in ms
    ensures Contains(AlternativeLines(ms), AlternativeLine(m))
  {
    var init := ms[..|ms| - 1];
    if m == ms[|ms| - 1] {
      ContainsInfix(AlternativeLines(init), AlternativeLine(m), "");
      assert AlternativeLines(init) + AlternativeLine(m) + "" == AlternativeLines(ms);
    } else {
      assert m in init;
      AlternativeLinesContain(init, m);
      ContainsInfix("", AlternativeLines(init), AlternativeLine(ms[|ms| - 1]));
      assert "" + AlternativeLines(init) + AlternativeLine(ms[|ms| - 1]) == AlternativeLines(ms);
      ContainsTrans(AlternativeLines(ms), AlternativeLines(init), AlternativeLine(m));
    }
  }

  lemma {:induction false} SectorLinesContain(secs: seq<Secteur>, sec: Secteur)
    requires sec in secs
    ensures Contains(SectorLines(secs), SectorLine(sec))
  {
    var init := secs[..|secs| - 1];
    if sec == secs[|secs| - 1] {
      ContainsInfix(SectorLines(init), SectorLine(sec), "");
      assert SectorLines(init) + SectorLine(sec) + "" == SectorLines(secs);
    } else {
      assert sec in init;
      SectorLinesContain(init, sec);
      ContainsInfix("", SectorLines(init), SectorLine(secs[|secs| - 1]));
      assert "" + SectorLines(init) + SectorLine(secs[|secs| - 1]) == SectorLines(secs);
      ContainsTrans(SectorLines(secs), SectorLines(init), SectorLine(sec));
    }
  }

  /** The occupation block is there exactly when an occupation was found, the
      compatibility block exactly when an analysis was made. */
  lemma BlocksPresent(a: ProfileAnalysis)
    ensures OccupationBlock(a) != "" <==> a.metierTrouve.Some?
    ensures CompatibilityBlock(a) != "" <==> a.compatibilityAnalysis.Some?
  {
    if a.metierTrouve.Some? {
      assert |OccupationBlock(a)| > 0;
    }
    if a.compatibilityAnalysis.Some? {
      assert |CompatibilityBlock(a)| > 0;
    }
  }

  /** Every alternative gets its line in the prompt, with the description cut
      to at most 100 characters. */
  lemma PromptAlternatives(student: StudentRecord, a: ProfileAnalysis, m: Metier)
    requires m in a.alternativeCareers
    ensures Contains(PromptText(student, a), AlternativeLine(m)) && |SlicePrefix(m.description, 100)| <= 100
  {
    AlternativesIn(PromptText(student, a), a);
  }

  /** A text holding the alternatives block holds the line of every alternative. */
  lemma AlternativesIn(text: string, a: ProfileAnalysis)
    requires Contains(text, AlternativesBlock(a))
    ensures forall m :: m in a.alternativeCareers ==>
              Contains(text, AlternativeLine(m)) && |SlicePrefix(m.description, 100)| <= 100
  {
    forall m | m in a.alternativeCareers
      ensures Contains(text, AlternativeLine(m)) && |SlicePrefix(m.description, 100)| <= 100
    {
      BlockHasLine(AlternativesTitle, AlternativeLines(a.alternativeCareers), AlternativesBlock(a), text, AlternativeLine(m))
        by { AlternativeLinesContain(a.alternativeCareers, m); }
    }
  }

  /** Every recommended sector gets its line in the prompt, with the
      description cut to at most 100 characters. */
  lemma PromptSectors(student: StudentRecord, a: ProfileAnalysis, sec: Secteur)
    requires sec in a.secteurRecommendations
    ensures Contains(PromptText(student, a), SectorLine(sec)) && |SlicePrefix(sec.description, 100)| <= 100
  {
    SectorsIn(PromptText(student, a), a);
  }

  /** A text holding the sectors block holds the line of every recommended sector. */
  lemma SectorsIn(text: string, a: ProfileAnalysis)
    requires Contains(text, SectorsBlock(a))
    ensures forall sec :: sec in a.secteurRecommendations ==>
              Contains(text, SectorLine(sec)) && |SlicePrefix(sec.description, 100)| <= 100
  {
    forall sec | sec in a.secteurRecommendations
      ensures Contains(text, SectorLine(sec)) && |SlicePrefix(sec.description, 100)| <= 100
    {
      BlockHasLine(SectorsTitle, SectorLines(a.secteurRecommendations), SectorsBlock(a), text, SectorLine(sec))
        by { SectorLinesContain(a.secteurRecommendations, sec); }
    }
  }

  /** A line of a titled block that is part of the prompt is part of the prompt. */
  lemma BlockHasLine(title: string, lines: string, block: string, prompt: string, line: string)
    requires block == title + lines
    requires Contains(lines, line) && Contains(prompt, block)
    ensures Contains(prompt, line)
  {
    ContainsInfix(title, lines, "");
    assert title + lines + "" == block;
    ContainsTrans(block, lines, line);
    ContainsTrans(prompt, block, line);
  }

  // ---------------------------------------------------------------------------
  // Retry policy of the model call

  /** What one attempt produced: a reply with its status code, the contents of
      its `choices` and its body text, or a transport error. */
  datatype AttemptOutcome =
    | Reply(statusCode: int, choices: seq<string>, text: string)
    | ConnectionError(message: string)

  /** The result of the call, how many attempts it made and how many times it slept. */
  datatype CallOutcome = CallOutcome(result: Result<string, string>, attempts: nat, sleeps: nat)

  const InvalidReplyMessage := "Réponse API invalide: pas de contenu"
  const AllFailedMessage := "Échec de tous les appels API"

  /** An attempt that fails in a way the loop retries: a status other than 200, or a transport error. */
  predicate Retryable(o: AttemptOutcome) {
    o.ConnectionError? || o.statusCode != 200
  }

  function FailureMessage(o: AttemptOutcome): string
    requires Retryable(o)
  {
    if o.ConnectionError? then "Erreur de connexion: " + o.message
    else "Erreur API (" + IntToDecimal(o.statusCode) + "): " + o.text
  }

  function Delayed(o: CallOutcome): CallOutcome {
    CallOutcome(o.result, o.attempts + 1, o.sleeps + 1)
  }

  /** The attempts from number `attempt` on. */
  function RetryFrom(llm: (string, nat) -> AttemptOutcome, prompt: string, maxRetries: nat, attempt: nat): (r: CallOutcome)
    decreases maxRetries - attempt
    ensures r.attempts <= if attempt < maxRetries then maxRetries - attempt else 0
  {
    if attempt >= maxRetries then CallOutcome(Failure(AllFailedMessage), 0, 0)
    else
      var o := llm(prompt, attempt);
      if !Retryable(o) then
        if o.choices != [] then CallOutcome(Success(o.choices[0]), 1, 0)
        else CallOutcome(Failure(InvalidReplyMessage), 1, 0)
      else if attempt == maxRetries - 1 then CallOutcome(Failure(FailureMessage(o)), 1, 0)
      else Delayed(RetryFrom(llm, prompt, maxRetries, attempt + 1))
  }

  /** `_call_deepseek_api` as a policy over the outcomes of the attempts. */
  function CallModel(llm: (string, nat) -> AttemptOutcome, prompt: string, maxRetries: nat): CallOutcome {
    RetryFrom(llm, prompt, maxRetries, 0)
  }

  /** At most `maxRetries` attempts; with at least one allowed, at least one is
      made, each attempt but the last is followed by one sleep, and the
      "all calls failed" message is never the result. */
  lemma {:induction false} RetryBounds(llm: (string, nat) -> AttemptOutcome, prompt: string, maxRetries: nat, attempt: nat)
    requires attempt < maxRetries
    ensures var r := RetryFrom(llm, prompt, maxRetries, attempt);
      1 <= r.attempts <= maxRetries - attempt && r.sleeps == r.attempts - 1
      && r.result != Failure(AllFailedMessage)
    decreases maxRetries - attempt
  {
    var o := llm(prompt, attempt);
    if Retryable(o) && attempt != maxRetries - 1 {
      RetryBounds(llm, prompt, maxRetries, attempt + 1);
      assert FailureMessage(o) != AllFailedMessage by {
        assert FailureMessage(o)[0] != AllFailedMessage[0];
      }
    } else if Retryable(o) {
      assert FailureMessage(o)[0] != AllFailedMessage[0];
    }
  }

  /** Attempt `k` returned status 200 with `c` as its first choice, and every
      attempt from `attempt` up to it failed in a way that is retried. */
  predicate SucceedsFirstAt(llm: (string, nat) -> AttemptOutcome, prompt: string, attempt: nat, k: nat, c: string) {
    && !Retryable(llm(prompt, k)) && llm(prompt, k).choices != [] && llm(prompt, k).choices[0] == c
    && forall j :: attempt <= j < k ==> Retryable(llm(prompt, j))
  }

  /** A call succeeds with `c` exactly when some attempt `k` returned status
      200 with `c` as its first choice and every attempt before it failed in
      a retryable way. */
  lemma {:induction false} RetrySuccess(llm: (string, nat) -> AttemptOutcome, prompt: string, maxRetries: nat, attempt: nat, c: string)
    ensures RetryFrom(llm, prompt, maxRetries, attempt).result == Success(c) <==>
      exists k :: attempt <= k < maxRetries && SucceedsFirstAt(llm, prompt, attempt, k, c)
    decreases maxRetries - attempt
  {
    if attempt < maxRetries {
      var o := llm(prompt, attempt);
      if Retryable(o) && attempt != maxRetries - 1 {
        RetrySuccess(llm, prompt, maxRetries, attempt + 1, c);
        if exists k :: attempt <= k < maxRetries && SucceedsFirstAt(llm, prompt, attempt, k, c) {
          var k :| attempt <= k < maxRetries && SucceedsFirstAt(llm, prompt, attempt, k, c);
          assert SucceedsFirstAt(llm, prompt, attempt + 1, k, c);
        }
        var next := attempt + 1;
        if exists k :: next <= k < maxRetries && SucceedsFirstAt(llm, prompt, next, k, c) {
          var k :| next <= k < maxRetries && SucceedsFirstAt(llm, prompt, next, k, c);
          assert SucceedsFirstAt(llm, prompt, attempt, k, c);
        }
      } else if !Retryable(o) {
        if o.choices != [] && o.choices[0] == c {
          assert SucceedsFirstAt(llm, prompt, attempt, attempt, c);
        }
      }
    }
  }

  /** A status-200 reply without choices ends the call at once: it is not retried. */
  lemma EmptyChoicesNotRetried(llm: (string, nat) -> AttemptOutcome, prompt: string, maxRetries: nat, attempt: nat)
    requires attempt < maxRetries
    requires llm(prompt, attempt).Reply? && llm(prompt, attempt).statusCode == 200 && llm(prompt, attempt).choices == []
    ensures RetryFrom(llm, prompt, maxRetries, attempt) == CallOutcome(Failure(InvalidReplyMessage), 1, 0)
  {
  }

  /** With three attempts allowed, two failures and then a good reply give that
      reply after three attempts and two sleeps. */
  lemma TwoFailuresThenSuccess(llm: (string, nat) -> AttemptOutcome, prompt: string, c: string)
    requires Retryable(llm(prompt, 0)) && Retryable(llm(prompt, 1))
    requires llm(prompt, 2) == Reply(200, [c], "")
    ensures CallModel(llm, prompt, MaxRetries) == CallOutcome(Success(c), 3, 2)
  {
    assert RetryFrom(llm, prompt, 3, 2) == CallOutcome(Success(c), 1, 0);
  }

  /** Three retryable failures give the last one's message. */
  lemma ThreeFailures(llm: (string, nat) -> AttemptOutcome, prompt: string)
    requires Retryable(llm(prompt, 0)) && Retryable(llm(prompt, 1)) && Retryable(llm(prompt, 2))
    ensures CallModel(llm, prompt, MaxRetries) == CallOutcome(Failure(FailureMessage(llm(prompt, 2))), 3, 2)
  {
    assert RetryFrom(llm, prompt, 3, 2) == CallOutcome(Failure(FailureMessage(llm(prompt, 2))), 1, 0);
  }

  // ---------------------------------------------------------------------------
  // Structured recommendation

  datatype StructuredRecommendation = StructuredRecommendation(
    fullRecommendation: string,
    sections: Sections,
    studentProfile: ProfileAnalysis,
    generationTimestamp: int)

  /** `_structure_recommendation`, with the clock reading passed in. */
  function StructureRecommendation(aiResponse: string, analysis: ProfileAnalysis, timestamp: int): StructuredRecommendation {
    StructuredRecommendation(aiResponse, ParseSections(aiResponse), analysis, timestamp)
  }

  /** The last step of `generate_recommendation`: a failed call gives its
      message as the error; a reply is kept whole, with its parsed sections
      and the analysis the prompt was built from, and a non-empty reply
      always fills some section. */
  function Finish(call: CallOutcome, analysis: ProfileAnalysis, timestamp: int): (r: Result<StructuredRecommendation, string>)
    ensures r.Failure? <==> call.result.Failure?
    ensures r.Failure? ==> r.error == call.result.error
    ensures r.Success? ==>
      && r.value.fullRecommendation == call.result.value
      && r.value.studentProfile == analysis
      && r.value.generationTimestamp == timestamp
      && r.value.sections == ParseSections(r.value.fullRecommendation)
      && (r.value.fullRecommendation != "" ==> !AllEmpty(r.value.sections))
  {
    match call.result
    case Failure(e) => Failure(e)
    case Success(reply) => Success(StructureRecommendation(reply, analysis, timestamp))
  }

  /** The error wrapping of `generate_recommendation` around `_structure_recommendation`. */
  method Structure(call: CallOutcome, analysis: ProfileAnalysis, timestamp: int)
    returns (r: Result<StructuredRecommendation, string>)
    ensures r == Finish(call, analysis, timestamp)
  {
    match call.result
    case Failure(e) => r := Failure(e);
    case Success(reply) =>
      var sections := ParseAiSections(reply);
      r := Success(StructuredRecommendation(reply, sections, analysis, timestamp));
  }

  /** `generate_recommendation`: analysis, prompt, call, structure. */
  function Generate(s: Store, student: StudentRecord, llm: (string, nat) -> AttemptOutcome, maxRetries: nat, timestamp: int)
    : Result<StructuredRecommendation, string>
  {
    var analysis := AnalyzeProfile(s, student);
    Finish(CallModel(llm, PromptText(student, analysis), maxRetries), analysis, timestamp)
  }

  lemma ConcatSix(p0: string, p1: string, p2: string, p3: string, p4: string, p5: string)
    ensures Concat([p0, p1, p2, p3, p4, p5]) == p0 + p1 + p2 + p3 + p4 + p5
  {
    var q1 := [] + [p0];
    var q2 := q1 + [p1];
    var q3 := q2 + [p2];
    var q4 := q3 + [p3];
    var q5 := q4 + [p4];
    var q6 := q5 + [p5];
    ConcatSnoc([], p0);
    ConcatSnoc(q1, p1);
    ConcatSnoc(q2, p2);
    ConcatSnoc(q3, p3);
    ConcatSnoc(q4, p4);
    ConcatSnoc(q5, p5);
    assert q6 == [p0, p1, p2, p3, p4, p5];
  }

  lemma AlternativeLinesNext(alts: seq<Metier>, i: nat)
    requires i < |alts|
    ensures AlternativeLines(alts[..i + 1]) == AlternativeLines(alts[..i]) + AlternativeLine(alts[i])
  {
    assert alts[..i + 1][..i] == alts[..i];
  }

  lemma SectorLinesNext(secs: seq<Secteur>, i: nat)
    requires i < |secs|
    ensures SectorLines(secs[..i + 1]) == SectorLines(secs[..i]) + SectorLine(secs[i])
  {
    assert secs[..i + 1][..i] == secs[..i];
  }

  /** The loop over the alternatives: appends their block to the prompt. */
  method AppendAlternatives(prompt: string, analysis: ProfileAnalysis) returns (r: string)
    ensures r == prompt + AlternativesBlock(analysis)
  {
    var alts := analysis.alternativeCareers;
    if alts == [] {
      return prompt;
    }
    var head := prompt + AlternativesTitle;
    r := head;
    var i := 0;
    while i < |alts|
      invariant 0 <= i <= |alts|
      invariant r == head + AlternativeLines(alts[..i])
    {
      AlternativeLinesNext(alts, i);
      ConcatParts(head, AlternativeLines(alts[..i]), AlternativeLine(alts[i]));
      r := r + AlternativeLine(alts[i]);
      i := i + 1;
    }
    assert alts[..i] == alts;
    ConcatParts(prompt, AlternativesTitle, AlternativeLines(alts));
  }

  /** The loop over the recommended sectors: appends their block to the prompt. */
  method AppendSectors(prompt: string, analysis: ProfileAnalysis) returns (r: string)
    ensures r == prompt + SectorsBlock(analysis)
  {
    var secs := analysis.secteurRecommendations;
    if secs == [] {
      return prompt;
    }
    var head := prompt + SectorsTitle;
    r := head;
    var i := 0;
    while i < |secs|
      invariant 0 <= i <= |secs|
      invariant r == head + SectorLines(secs[..i])
    {
      SectorLinesNext(secs, i);
      ConcatParts(head, SectorLines(secs[..i]), SectorLine(secs[i]));
      r := r + SectorLine(secs[i]);
      i := i + 1;
    }
    assert secs[..i] == secs;
    ConcatParts(prompt, SectorsTitle, SectorLines(secs));
  }

  /** The engine: a reference to the knowledge base and the retry settings. */
  class RecommendationEngine {
    const kb: KnowledgeBaseManager
    const maxRetries: nat
    const retryDelay: nat

    constructor(kb: KnowledgeBaseManager)
      ensures this.kb == kb && maxRetries == MaxRetries && retryDelay == RetryDelay
    {
      this.kb := kb;
      maxRetries := MaxRetries;
      retryDelay := RetryDelay;
    }

    /** `_analyze_student_profile`, through the manager's query methods. */
    method AnalyzeStudentProfile(student: StudentRecord) returns (r: ProfileAnalysis)
      ensures r == AnalyzeProfile(kb.Model(), student)
    {
      var filiere := GetOr(student, "Filière Actuelle", "");
      var carriere := GetOr(student, "Carrière Envisagée", "");
      var found: Option<Metier> := None;
      var compatibility: Option<Compatibility> := None;
      var alternatives: seq<Metier> := [];
      if carriere != "" {
        found := kb.FindMetier(carriere);
        if found.Some? {
          var c := kb.AnalyzeFiliereMetierCompatibility(filiere, carriere);
          compatibility := Some(c);
          alternatives := kb.FindSimilarMetiers(found.value, 3);
        }
      }
      var secteurs := Values(kb.secteurs);
      r := ProfileAnalysis(filiere, carriere, found, compatibility, alternatives, SlicePrefix(secteurs, 3));
    }

    /** `_build_deepseek_prompt`, growing the prompt one piece at a time. */
    method BuildDeepseekPrompt(student: StudentRecord, analysis: ProfileAnalysis) returns (prompt: string)
      ensures prompt == PromptText(student, analysis)
    {
      prompt := StudentHeader(student);
      prompt := prompt + OccupationBlock(analysis);
      prompt := prompt + CompatibilityBlock(analysis);
      prompt := AppendAlternatives(prompt, analysis);
      prompt := AppendSectors(prompt, analysis);
      prompt := prompt + Instructions;
    }

    /** `_call_deepseek_api`: the counted retry loop. */
    method CallDeepseekApi(prompt: string, llm: (string, nat) -> AttemptOutcome) returns (r: CallOutcome)
      ensures r == CallModel(llm, prompt, maxRetries)
    {
      var sleeps := 0;
      var attempt := 0;
      while attempt < maxRetries
        invariant 0 <= attempt <= maxRetries && sleeps == attempt
        invariant CallModel(llm, prompt, maxRetries)
               == var rest := RetryFrom(llm, prompt, maxRetries, attempt);
                  CallOutcome(rest.result, rest.attempts + attempt, rest.sleeps + sleeps)
      {
        var response := llm(prompt, attempt);
        var errorMsg: string;
        match response {
          case Reply(statusCode, choices, text) =>
            if statusCode == 200 {
              if choices != [] {
                return CallOutcome(Success(choices[0]), attempt + 1, sleeps);
              } else {
                return CallOutcome(Failure(InvalidReplyMessage), attempt + 1, sleeps);
              }
            }
            errorMsg := "Erreur API (" + IntToDecimal(statusCode) + "): " + text;
          case ConnectionError(e) =>
            errorMsg := "Erreur de connexion: " + e;
        }
        if attempt == maxRetries - 1 {
          return CallOutcome(Failure(errorMsg), attempt + 1, sleeps);
        }
        sleeps := sleeps + 1;
        attempt := attempt + 1;
      }
      return CallOutcome(Failure(AllFailedMessage), attempt, sleeps);
    }

    /** `generate_recommendation`. */
    method GenerateRecommendation(student: StudentRecord, llm: (string, nat) -> AttemptOutcome, timestamp: int)
      returns (r: Result<StructuredRecommendation, string>)
      ensures r == Generate(kb.Model(), student, llm, maxRetries, timestamp)
    {
      var analysis := AnalyzeStudentProfile(student);
      var prompt := BuildDeepseekPrompt(student, analysis);
      var call := CallDeepseekApi(prompt, llm);
      r := Structure(call, analysis, timestamp);
    }
  }
}
