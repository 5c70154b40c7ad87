/** The personality questionnaire: the four-letter type code computed from
    the tallies of ticked statements, and the two constant tables that
    describe a type code and each of its letters. */
module Personality {
  import opened Common

  /** Tallies per dimension and letter: `answers["EI"]["E"]` counts the E
      statements ticked. */
  type Answers = map<string, map<string, int>>

  /** One entry of `MBTI_DESCRIPTIONS`. */
  datatype Description = Description(title: string, group: string, summary: string)

  /** One entry of `MBTI_EXPLANATIONS`. */
  datatype Explanation = Explanation(name: string, description: string)

  /** The four dimensions in the order of the code, each with the letter
      that needs a strictly higher tally and the letter that wins otherwise. */
  function Dimension(i: nat): (char, char)
    requires i < 4
  {
    if i == 0 then ('E', 'I')
    else if i == 1 then ('S', 'N')
    else if i == 2 then ('T', 'F')
    else ('J', 'P')
  }

  /** The key of dimension `i` in the answers: its two letters ("EI", "SN", ...). */
  function DimensionKey(i: nat): (k: string)
    requires i < 4
    ensures |k| == 2 && k[0] == Dimension(i).0 && k[1] == Dimension(i).1
  {
    [Dimension(i).0, Dimension(i).1]
  }

  /** `answers.get(dimension, {}).get(letter, 0)`. */
  function Score(answers: Answers, dimension: string, letter: char): (s: int)
    ensures (dimension !in answers || [letter] !in answers[dimension]) ==> s == 0
    ensures dimension in answers && [letter] in answers[dimension] ==> s == answers[dimension][[letter]]
  {
    var tallies := if dimension in answers then answers[dimension] else map[];
    if [letter] in tallies then tallies[[letter]] else 0
  }

  /** The letter chosen for one dimension: `first` only on a strictly higher tally. */
  function Preference(answers: Answers, dimension: string, first: char, second: char): (c: char)
    requires first != second
    ensures c == first || c == second
    ensures c == first <==> Score(answers, dimension, first) > Score(answers, dimension, second)
  {
    if Score(answers, dimension, first) > Score(answers, dimension, second) then first else second
  }

  /** A code made of one letter of each dimension, in order. */
  predicate IsTypeCode(code: string) {
    |code| == 4
    && forall i :: 0 <= i < 4 ==> code[i] == Dimension(i).0 || code[i] == Dimension(i).1
  }

  /** `calculate_mbti_profile`: "----" when nothing was answered, otherwise
      the preferred letter of each dimension. */
  function CalculateMbtiProfile(answers: Answers): (r: string)
    ensures answers == map[] <==> r == "----"
    ensures answers != map[] ==> |r| == 4
  {
    if answers == map[] then "----"
    else
      [Preference(answers, "EI", 'E', 'I'),
       Preference(answers, "SN", 'S', 'N'),
       Preference(answers, "TF", 'T', 'F'),
       Preference(answers, "JP", 'J', 'P')]
  }

  /** Each letter of a computed code comes from its dimension, and it is the
      first letter exactly when that letter's tally is strictly higher, so a
      tie gives the second letter. */
  lemma ProfileLetters(answers: Answers)
    requires answers != map[]
    ensures IsTypeCode(CalculateMbtiProfile(answers))
    ensures forall i :: 0 <= i < 4 ==>
      (CalculateMbtiProfile(answers)[i] == Dimension(i).0
       <==> Score(answers, DimensionKey(i), Dimension(i).0) > Score(answers, DimensionKey(i), Dimension(i).1))
  {
    assert DimensionKey(0) == "EI" && DimensionKey(1) == "SN";
    assert DimensionKey(2) == "TF" && DimensionKey(3) == "JP";
  }

  /** Tallies E6/I4, S3/N7, T5/F5, J8/P2 give "ENFJ": the tie on T/F goes to F. */
  lemma TalliesGiveEnfj(answers: Answers)
    requires answers == map[
      "EI" := map["E" := 6, "I" := 4],
      "SN" := map["S" := 3, "N" := 7],
      "TF" := map["T" := 5, "F" := 5],
      "JP" := map["J" := 8, "P" := 2]]
    ensures CalculateMbtiProfile(answers) == "ENFJ"
  {
    assert Score(answers, "EI", 'E') == 6 && Score(answers, "EI", 'I') == 4;
    assert Score(answers, "SN", 'S') == 3 && Score(answers, "SN", 'N') == 7;
    assert Score(answers, "TF", 'T') == 5 && Score(answers, "TF", 'F') == 5;
    assert Score(answers, "JP", 'J') == 8 && Score(answers, "JP", 'P') == 2;
  }

  /** An answered but empty dimension and the missing ones count as zero, so
      every dimension falls to its second letter. */
  lemma MissingTalliesGiveInfp(answers: Answers)
    requires answers == map["EI" := map[]]
    ensures CalculateMbtiProfile(answers) == "INFP"
  {
    assert Score(answers, "EI", 'E') == 0 && Score(answers, "EI", 'I') == 0;
    assert "SN" !in answers && "TF" !in answers && "JP" !in answers;
  }

  /** The sixteen codes `MBTI_DESCRIPTIONS` has an entry for. */
  const DescribedCodes: set<string> := {
    "ISTJ", "ISFJ", "INFJ", "INTJ",
    "ISTP", "ISFP", "INFP", "INTP",
    "ESTP", "ESFP", "ENFP", "ENTP",
    "ESTJ", "ESFJ", "ENFJ", "ENTJ" }

  /** `MBTI_DESCRIPTIONS.get(code)`: the description of a type code, `None`
      standing for the empty dictionary returned for an unknown code. */
  function DescriptionOf(code: string): Option<Description> {
    if code in DescribedCodes then Some(DescriptionEntry(code)) else None
  }

  /** The entries of `MBTI_DESCRIPTIONS`. */
  function DescriptionEntry(code: string): Description
    requires code in DescribedCodes
  {
    match code
    case "ISTJ" => Description(
      "ISTJ - Le Contrôleur",
      "Les Gardiens (SJ)",
      "Sérieux, réservé, et factuel (S). Il est logique, méthodique et responsable (T). Il valorise la tradition, l'ordre et la précision, et s'assure que les choses sont faites correctement et dans les règles (J).")
    case "ISFJ" => Description(
      "ISFJ - Le Protecteur",
      "Les Gardiens (SJ)",
      "Dévoué, calme (I), et méticuleux (S). Il est loyal, fiable et profondément attentionné aux sentiments des autres (F). Il apprécie la structure et la tradition (J) et travaille en coulisses pour assurer le bien-être de son entourage.")
    case "INFJ" => Description(
      "INFJ - Le Conseiller",
      "Les Idéalistes (NF)",
      "Perspicace, réservé (I), et orienté vers les possibilités et le sens profond (N). Il est profondément empathique et dévoué à aider les autres (F). Il est déterminé, organisé dans sa quête d'idéaux et de visions à long terme (J).")
    case "INTJ" => Description(
      "INTJ - Le Cerveau (ou Architecte)",
      "Les Rationnels (NT)",
      "Indépendant, conceptuel (I), et visionnaire (N). Il est très logique, analytique et critique (T). Il est un excellent stratège, planificateur à long terme et déterminé à mettre en œuvre ses idées (J).")
    case "ISTP" => Description(
      "ISTP - L'Artisan",
      "Les Artisans (SP)",
      "Observateur, calme (I), et très doué pour comprendre comment les choses fonctionnent (S). Il est logique, analytique et excellent pour le dépannage et la résolution de problèmes concrets (T). Il est flexible, indépendant et aime l'action pratique (P).")
    case "ISFP" => Description(
      "ISFP - Le Compositeur",
      "Les Artisans (SP)",
      "Doux, sensible (I), et très attentif à son environnement et à l'esthétique (S). Il est guidé par ses valeurs profondes et son désir d'harmonie (F). Il est flexible, adaptable et préfère s'exprimer par des actions concrètes plutôt que par des mots (P).")
    case "INFP" => Description(
      "INFP - Le Guérisseur (ou Médiateur)",
      "Les Idéalistes (NF)",
      "Idéaliste, calme (I), et en quête de sens et d'authenticité (N). Il est profondément attaché à ses valeurs et à l'harmonie (F). Il est flexible, ouvert d'esprit et cherche à vivre en accord avec ses idéaux (P).")
    case "INTP" => Description(
      "INTP - L'Architecte (concepteur de systèmes)",
      "Les Rationnels (NT)",
      "Analytique, réservé (I), et fasciné par les théories et les concepts complexes (N). Il est extrêmement logique, précis et cherche à comprendre le fonctionnement profond des choses (T). Il est flexible, curieux et aime explorer les idées pour elles-mêmes (P).")
    case "ESTP" => Description(
      "ESTP - L'Organisateur",
      "Les Artisans (SP)",
      "Énergique, orienté vers l'action (E) et très pragmatique (S). Il est logique, direct et doué pour résoudre les problèmes de manière inventive (T). Il est adaptable, aime les défis et sait improviser (P).")
    case "ESFP" => Description(
      "ESFP - L'Artiste Interprète",
      "Les Artisans (SP)",
      "Enthousiaste, sociable et plein de vie (E). Il aime l'action, vit dans l'instant présent (S) et est très sensible à l'ambiance et aux émotions (F). Il est flexible, spontané et aime divertir et engager les autres (P).")
    case "ENFP" => Description(
      "ENFP - Le Défenseur (Champion/Inspirateur)",
      "Les Idéalistes (NF)",
      "Enthousiaste, créatif (E), et plein d'idées (N). Il est motivé par ses valeurs et son désir d'aider les autres à s'épanouir (F). Il est spontané, adaptable et aime explorer de nouvelles possibilités (P).")
    case "ENTP" => Description(
      "ENTP - L'Inventeur",
      "Les Rationnels (NT)",
      "Ingénieux, curieux (E), et toujours à la recherche de nouvelles idées et possibilités (N). Il est logique, aime débattre et remettre en question le statu quo (T). Il est flexible, adaptable et aime explorer de multiples options (P).")
    case "ESTJ" => Description(
      "ESTJ - Le Superviseur",
      "Les Gardiens (SJ)",
      "Pragmatique, direct (E), et réaliste (S). Il est logique, organisé et aime prendre des décisions basées sur des faits objectifs (T). Il est doué pour la gestion, l'application des règles et la mise en place de structures efficaces (J).")
    case "ESFJ" => Description(
      "ESFJ - Le Soutien",
      "Les Gardiens (SJ)",
      "Chaleureux, sociable (E), pratique et attentif aux besoins concrets des autres (S). Il est guidé par ses valeurs et son empathie (F) et aime l'ordre et l'organisation pour apporter son aide (J). C'est une personne qui aime prendre soin des autres et maintenir l'harmonie.")
    case "ENFJ" => Description(
      "ENFJ - Le Professeur",
      "Les Idéalistes (NF)",
      "Charismatique, empathique (E), et visionnaire (N). Il est sensible aux besoins et motivations des autres (F) et aime les aider à atteindre leur potentiel. Il est organisé et doué pour mobiliser les gens autour d'une cause commune (J).")
    case "ENTJ" => Description(
      "ENTJ - Le Maréchal (ou Commandant)",
      "Les Rationnels (NT)",
      "Assertif, visionnaire (E), et stratégique (N). Il est logique, décidé et doué pour diriger et organiser des systèmes complexes (T). Il est un leader naturel, planificateur et orienté vers les objectifs (J).")
  }

  /** The eight letters `MBTI_EXPLANATIONS` has an entry for. */
  const ExplainedLetters: set<char> := {'E', 'I', 'S', 'N', 'T', 'F', 'J', 'P'}

  /** `MBTI_EXPLANATIONS.get(letter)`: the meaning of one preference letter,
      `None` for any other character. */
  function ExplanationOf(letter: char): Option<Explanation> {
    if letter in ExplainedLetters then Some(ExplanationEntry(letter)) else None
  }

  /** The entries of `MBTI_EXPLANATIONS`. */
  function ExplanationEntry(letter: char): Explanation
    requires letter in ExplainedLetters
  {
    match letter
    case 'E' => Explanation(
      "Extraverti",
      "Vous puisez votre énergie de l'environnement extérieur, les gens, les activités et les expériences. Vous êtes plutôt actif et expressif. [ACTION]")
    case 'I' => Explanation(
      "Introverti",
      "Vous puisez votre énergie de l'univers intérieur des idées, des souvenirs, des pensées et des émotions. Vous êtes plutôt réfléchi et réservé. [REFLEXION]")
    case 'S' => Explanation(
      "Sensation",
      "Vous remarquez les faits, les détails et les réalités du monde qui vous entoure. Vous recueillez des informations concrètes et tangibles. Vous êtes plutôt terre-à-terre. [PRESENT]")
    case 'N' => Explanation(
      "Intuition",
      "Vous abordez les données dans leur globalité et vous êtes davantage intéressé par leur sens, les relations entre les choses, et les possibilités, au-delà des faits directement observables. Vous recueillez des informations abstraites et intangibles. Vous êtes plutôt imaginatif. [FUTUR]")
    case 'T' => Explanation(
      "Pensée",
      "Vous prenez des décisions en vous basant sur des critères objectifs et impersonnels. Vous êtes logique. Vous recherchez la Vérité. [RAISON]")
    case 'F' => Explanation(
      "Sentiment",
      "Vous prenez des décisions en tenant compte de vos valeurs et de vos impressions personnelles. Vous êtes sensible. Vous recherchez l'Harmonie. [EMPATHIE]")
    case 'J' => Explanation(
      "Jugement",
      "Vous préférez vivre dans un environnement structuré, ordonné et prévisible, que vous pouvez contrôler. Vous êtes plutôt organisé et formel. [ORGANISATION]")
    case 'P' => Explanation(
      "Perception",
      "Vous préférez expérimenter autant que possible, vous êtes donc très ouverts aux changements. Vous êtes plutôt flexible, curieux et non conformiste. [ADAPTATION]")
  }

  /** The letters of the four dimensions. */
  predicate IsPreferenceLetter(letter: char) {
    exists i :: 0 <= i < 4 && (letter == Dimension(i).0 || letter == Dimension(i).1)
  }

  /** The sixteen described codes are exactly the codes made of one letter per dimension. */
  lemma DescribedCodesAreTypeCodes(code: string)
    ensures code in DescribedCodes <==> IsTypeCode(code)
  {
    if IsTypeCode(code) {
      assert code == [code[0], code[1], code[2], code[3]];
      assert code[0] == Dimension(0).0 || code[0] == Dimension(0).1;
      assert code[1] == Dimension(1).0 || code[1] == Dimension(1).1;
      assert code[2] == Dimension(2).0 || code[2] == Dimension(2).1;
      assert code[3] == Dimension(3).0 || code[3] == Dimension(3).1;
    }
  }

  /** Every code made of one letter per dimension has a description, and no
      other string has one. */
  lemma DescriptionKnownCodes(code: string)
    ensures DescriptionOf(code).Some? <==> IsTypeCode(code)
  {
    DescribedCodesAreTypeCodes(code);
  }

  /** The code computed from a non-empty set of answers always has a description. */
  lemma ProfileDescribed(answers: Answers)
    requires answers != map[]
    ensures DescriptionOf(CalculateMbtiProfile(answers)).Some?
  {
    ProfileLetters(answers);
    DescriptionKnownCodes(CalculateMbtiProfile(answers));
  }

  /** The explained letters are exactly the letters of the four dimensions. */
  lemma ExplainedLettersArePreferences(letter: char)
    ensures letter in ExplainedLetters <==> IsPreferenceLetter(letter)
  {
    if letter in ExplainedLetters {
      var i := if letter == 'E' || letter == 'I' then 0
        else if letter == 'S' || letter == 'N' then 1
        else if letter == 'T' || letter == 'F' then 2 else 3;
      assert letter == Dimension(i).0 || letter == Dimension(i).1;
    }
  }

  /** Exactly the eight letters of the dimensions are explained. */
  lemma ExplanationKnownLetters(letter: char)
    ensures ExplanationOf(letter).Some? <==> IsPreferenceLetter(letter)
  {
    ExplainedLettersArePreferences(letter);
  }

  /** `get_mbti_explanations_for_profile`: nothing unless the code has four
      characters; otherwise each dimension key mapped to the explanation of
      the code's letter at that position (`None` for an unknown letter). */
  function ExplanationsFor(code: string): (r: map<string, Option<Explanation>>)
    ensures |code| != 4 ==> r == map[]
    ensures |code| == 4 ==> r.Keys == {"EI", "SN", "TF", "JP"}
  {
    if |code| != 4 then map[]
    else map[
      "EI" := ExplanationOf(code[0]),
      "SN" := ExplanationOf(code[1]),
      "TF" := ExplanationOf(code[2]),
      "JP" := ExplanationOf(code[3])]
  }

  /** Position `i` of a four-character code is explained under the key of dimension `i`. */
  lemma ExplanationsByDimension(code: string)
    requires |code| == 4
    ensures forall i :: 0 <= i < 4 ==>
      DimensionKey(i) in ExplanationsFor(code) && ExplanationsFor(code)[DimensionKey(i)] == ExplanationOf(code[i])
  {
    assert DimensionKey(0) == "EI" && DimensionKey(1) == "SN";
    assert DimensionKey(2) == "TF" && DimensionKey(3) == "JP";
  }

  /** Every letter of a computed code is explained, under the key of its dimension. */
  lemma ProfileExplained(answers: Answers)
    requires answers != map[]
    ensures var e := ExplanationsFor(CalculateMbtiProfile(answers));
      forall i :: 0 <= i < 4 ==>
        DimensionKey(i) in e && e[DimensionKey(i)].Some?
        && e[DimensionKey(i)] == ExplanationOf(CalculateMbtiProfile(answers)[i])
  {
    var code := CalculateMbtiProfile(answers);
    ProfileLetters(answers);
    ExplanationsByDimension(code);
    forall i | 0 <= i < 4 ensures ExplanationOf(code[i]).Some? {
      ExplanationKnownLetters(code[i]);
      assert IsPreferenceLetter(code[i]);
    }
  }

  /** The placeholder "----" has four keys, none of them explained. */
  lemma PlaceholderNotExplained()
    ensures var e := ExplanationsFor(CalculateMbtiProfile(map[]));
      e.Keys == {"EI", "SN", "TF", "JP"} && forall k :: k in e ==> e[k].None?
  {
    var code := CalculateMbtiProfile(map[]);
    assert code[0] == code[1] == code[2] == code[3] == '-';
    assert '-' !in ExplainedLetters;
  }
}
