/**
 * `generateRecommendations`: an ordered list of advice texts built from the
 * category scores (thresholds 40 and 60) and from two single answers.
 */
module Recommendations {
  import opened Wrappers
  import opened Catalog

  const LowThreshold: int := 40
  const MidThreshold: int := 60

  /** Which advice text the source pushes. */
  datatype Advice =
    | Low(c: Category)
    | Mid(c: Category)
    | Sleep
    | Nutrition
    | Congratulations
    | Fallback

  /** The text of each advice. */
  function Text(a: Advice): string {
    match a
    case Low(Energetico) => "Seu nível energético está baixo. Considere práticas como meditação focada em energia, exercícios de respiração (pranayamas) e garantir um sono reparador."
    case Mid(Energetico) => "Para otimizar seu campo energético, explore técnicas de bioenergética ou acupuntura, e observe momentos de descanso durante o dia."
    case Low(Emocional) => "O equilíbrio emocional parece ser um ponto de atenção. Técnicas de mindfulness, terapia ou coaching emocional podem ser muito benéficas."
    case Mid(Emocional) => "Para fortalecer sua resiliência emocional, pratique a escrita terapêutica ou dedique tempo a hobbies que lhe tragam alegria e relaxamento."
    case Low(Mental) => "Sua clareza mental pode ser aprimorada. Experimente exercícios de foco, como quebra-cabeças ou leitura concentrada, e reduza multitarefas."
    case Mid(Mental) => "Para um estado mental mais aguçado, considere aprender algo novo, praticar a meditação de atenção plena ou organizar seu ambiente de trabalho/estudo."
    case Low(Fisico) => "Seu corpo físico pede atenção. Inicie uma rotina de atividades físicas leves e revise seus hábitos alimentares, buscando opções mais nutritivas."
    case Mid(Fisico) => "Para melhorar seu bem-estar físico, aumente a intensidade ou frequência de seus exercícios e explore alimentos integrais e hidratação adequada."
    case Low(Espiritual) => "Sua conexão espiritual pode ser aprofundada. Dedique tempo a práticas contemplativas, contato com a natureza ou atividades que nutram sua alma."
    case Mid(Espiritual) => "Para expandir sua dimensão espiritual, explore filosofias de vida, participe de grupos com interesses similares ou pratique a gratidão diariamente."
    case Sleep => "A qualidade do seu sono parece ser um desafio. Crie uma rotina relaxante antes de dormir, evite cafeína à noite e garanta um ambiente escuro e silencioso."
    case Nutrition => "Seus hábitos alimentares podem ser melhorados. Considere consultar um nutricionista ou pesquisar sobre dietas balanceadas e ricas em nutrientes."
    case Congratulations => "Parabéns! Seus campos quânticos mostram um bom equilíbrio. Continue nutrindo todas as suas dimensões e explore práticas avançadas de harmonização se desejar ir além."
    case Fallback => "Seus campos quânticos estão em um estado geral positivo. Continue com suas práticas de bem-estar e observe as áreas que podem ser sutilmente aprimoradas."
  }

  /** The texts of a list of advice, in order. */
  function Texts(s: seq<Advice>): seq<string>
  {
    seq(|s|, i requires 0 <= i < |s| => Text(s[i]))
  }

  /** The advice a category adds: low below 40, mid from 40 below 60, none otherwise or when absent. */
  function CategoryAdvice(results: Scores, c: Category): (r: seq<Advice>)
    ensures |r| <= 1 && forall i :: 0 <= i < |r| ==> (r[i].Low? || r[i].Mid?) && r[i].c == c
    ensures forall i :: 0 <= i < |r| ==> Rank(r[i]) == CategoryRank(c)
  {
    match Lookup(results, c.Name())
    case None => []
    case Some(v) => if v < LowThreshold then [Low(c)] else if v < MidThreshold then [Mid(c)] else []
  }

  /** The single-answer rule: the answer is present (a non-empty string) and parses to at most 2. */
  function AnswerAdvice(answers: map<string, int>, id: string, a: Advice): (r: seq<Advice>)
    ensures |r| <= 1 && forall i :: 0 <= i < |r| ==> r[i] == a
  {
    if id in answers && answers[id] <= 2 then [a] else []
  }

  /** Every value of the score map is at least 60 (`Object.values(results).every(...)`). */
  predicate AllAtLeastMid(results: Scores) {
    forall i :: 0 <= i < |results| ==> results[i].1 >= MidThreshold
  }

  /** The messages before the closing one, in the source's order. */
  function Body(results: Scores, answers: map<string, int>): seq<Advice> {
    CategoryAdvice(results, Energetico) + CategoryAdvice(results, Emocional)
    + CategoryAdvice(results, Mental) + CategoryAdvice(results, Fisico)
    + AnswerAdvice(answers, "fisico_3", Sleep) + AnswerAdvice(answers, "fisico_5", Nutrition)
    + CategoryAdvice(results, Espiritual)
  }

  /** The whole advice list: the body, then congratulations, or the fallback when nothing was said. */
  function Advise(results: Scores, answers: map<string, int>): seq<Advice> {
    var body := Body(results, answers);
    if AllAtLeastMid(results) then body + [Congratulations]
    else if body == [] then [Fallback]
    else body
  }

  /** Pushes the advice of one category (one `if / else if` block of the source). */
  method PushCategory(results: Scores, c: Category, pushed: seq<Advice>) returns (r: seq<Advice>)
    ensures r == pushed + CategoryAdvice(results, c)
  {
    r := pushed;
    var score := Lookup(results, c.Name());
    if score.Some? && score.value < LowThreshold {
      r := r + [Low(c)];
    } else if score.Some? && score.value < MidThreshold {
      r := r + [Mid(c)];
    }
  }

  /** Pushes `a` when the answer to `id` is present and at most 2 (the sleep and nutrition rules). */
  method PushAnswer(answers: map<string, int>, id: string, a: Advice, pushed: seq<Advice>) returns (r: seq<Advice>)
    ensures r == pushed + AnswerAdvice(answers, id, a)
  {
    r := pushed;
    if id in answers && answers[id] <= 2 {
      r := r + [a];
    }
  }

  /**
   * `generateRecommendations(results, answers)`: the messages are pushed one by
   * one, each named by its `Advice`, and the list of their texts is returned.
   */
  method GenerateRecommendations(results: Scores, answers: map<string, int>) returns (recommendations: seq<string>)
    ensures recommendations == Texts(Advise(results, answers))
  {
    var pushed: seq<Advice> := [];
    pushed := PushCategory(results, Energetico, pushed);
    pushed := PushCategory(results, Emocional, pushed);
    pushed := PushCategory(results, Mental, pushed);
    pushed := PushCategory(results, Fisico, pushed);
    pushed := PushAnswer(answers, "fisico_3", Sleep, pushed);
    pushed := PushAnswer(answers, "fisico_5", Nutrition, pushed);
    pushed := PushCategory(results, Espiritual, pushed);
    assert [] + CategoryAdvice(results, Energetico) == CategoryAdvice(results, Energetico);
    assert pushed == Body(results, answers);
    if AllAtLeastMid(results) {
      pushed := pushed + [Congratulations];
    } else if |pushed| == 0 {
      pushed := pushed + [Fallback];
    }
    recommendations := Texts(pushed);
  }

  /** Position of an advice in the source's order of checks. */
  function Rank(a: Advice): nat {
    match a
    case Low(c) => CategoryRank(c)
    case Mid(c) => CategoryRank(c)
    case Sleep => 4
    case Nutrition => 5
    case Congratulations => 7
    case Fallback => 7
  }

  function CategoryRank(c: Category): nat {
    match c
    case Energetico => 0
    case Emocional => 1
    case Mental => 2
    case Fisico => 3
    case Espiritual => 6
  }

  /** Ranks strictly increase along `s`, and all are below `bound`. */
  predicate RankedBelow(s: seq<Advice>, bound: nat) {
    (forall i, j :: 0 <= i < j < |s| ==> Rank(s[i]) < Rank(s[j]))
    && (forall i :: 0 <= i < |s| ==> Rank(s[i]) < bound)
  }

  lemma Extend(s: seq<Advice>, t: seq<Advice>, bound: nat, next: nat)
    requires RankedBelow(s, bound) && bound <= next
    requires |t| <= 1 && forall i :: 0 <= i < |t| ==> bound <= Rank(t[i]) < next
    ensures RankedBelow(s + t, next)
  {
  }

  /**
   * Messages appear in the order energetico, emocional, mental, fisico, sleep,
   * nutrition, espiritual, closing, with at most one message per position.
   */
  lemma AdviceOrder(results: Scores, answers: map<string, int>)
    ensures forall i, j :: 0 <= i < j < |Advise(results, answers)| ==>
              Rank(Advise(results, answers)[i]) < Rank(Advise(results, answers)[j])
  {
    PartsInOrder(CategoryAdvice(results, Energetico), CategoryAdvice(results, Emocional),
      CategoryAdvice(results, Mental), CategoryAdvice(results, Fisico),
      AnswerAdvice(answers, "fisico_3", Sleep), AnswerAdvice(answers, "fisico_5", Nutrition),
      CategoryAdvice(results, Espiritual));
    ClosingInOrder(results, answers);
  }

  lemma ClosingInOrder(results: Scores, answers: map<string, int>)
    requires RankedBelow(Body(results, answers), 7)
    ensures forall i, j :: 0 <= i < j < |Advise(results, answers)| ==>
              Rank(Advise(results, answers)[i]) < Rank(Advise(results, answers)[j])
  {
    Extend(Body(results, answers), [Congratulations], 7, 8);
  }

  /** Seven parts of at most one message each, of ranks 0 to 6, concatenate in increasing order. */
  lemma PartsInOrder(e: seq<Advice>, em: seq<Advice>, m: seq<Advice>, f: seq<Advice>,
                     sl: seq<Advice>, nu: seq<Advice>, es: seq<Advice>)
    requires |e| <= 1 && |em| <= 1 && |m| <= 1 && |f| <= 1 && |sl| <= 1 && |nu| <= 1 && |es| <= 1
    requires forall i :: 0 <= i < |e| ==> Rank(e[i]) == 0
    requires forall i :: 0 <= i < |em| ==> Rank(em[i]) == 1
    requires forall i :: 0 <= i < |m| ==> Rank(m[i]) == 2
    requires forall i :: 0 <= i < |f| ==> Rank(f[i]) == 3
    requires forall i :: 0 <= i < |sl| ==> Rank(sl[i]) == 4
    requires forall i :: 0 <= i < |nu| ==> Rank(nu[i]) == 5
    requires forall i :: 0 <= i < |es| ==> Rank(es[i]) == 6
    ensures RankedBelow(e + em + m + f + sl + nu + es, 7)
  {
    var s := [] + e;
    Extend([], e, 0, 1);
    var s1 := e + em;
    Extend(e, em, 1, 2);
    Extend(s1, m, 2, 3);
    var s2 := s1 + m;
    Extend(s2, f, 3, 4);
    var s3 := s2 + f;
    Extend(s3, sl, 4, 5);
    var s4 := s3 + sl;
    Extend(s4, nu, 5, 6);
    var s5 := s4 + nu;
    Extend(s5, es, 6, 7);
  }

  lemma BodyMembers(results: Scores, answers: map<string, int>, a: Advice)
    ensures a in Body(results, answers) <==>
      a in CategoryAdvice(results, Energetico) || a in CategoryAdvice(results, Emocional)
      || a in CategoryAdvice(results, Mental) || a in CategoryAdvice(results, Fisico)
      || a in AnswerAdvice(answers, "fisico_3", Sleep) || a in AnswerAdvice(answers, "fisico_5", Nutrition)
      || a in CategoryAdvice(results, Espiritual)
  {
  }

  /** `a` occurs in the advice list exactly when it occurs in its body or is the closing message. */
  lemma AdviseMembers(results: Scores, answers: map<string, int>, a: Advice)
    ensures a in Advise(results, answers) <==>
      a in Body(results, answers)
      || (a == Congratulations && AllAtLeastMid(results))
      || (a == Fallback && !AllAtLeastMid(results) && Body(results, answers) == [])
  {
  }

  /** A category's own part holds its low or mid message exactly as the thresholds say. */
  lemma OwnPart(results: Scores, c: Category)
    ensures Low(c) in CategoryAdvice(results, c) <==>
              Lookup(results, c.Name()).Some? && Lookup(results, c.Name()).value < LowThreshold
    ensures Mid(c) in CategoryAdvice(results, c) <==>
              Lookup(results, c.Name()).Some? && LowThreshold <= Lookup(results, c.Name()).value < MidThreshold
  {
  }

  /** Only a category's own part can hold its messages. */
  lemma OtherParts(results: Scores, answers: map<string, int>, c: Category, a: Advice)
    requires a == Low(c) || a == Mid(c)
    ensures a in Body(results, answers) <==> a in CategoryAdvice(results, c)
  {
    BodyMembers(results, answers, a);
    forall d | a in CategoryAdvice(results, d) ensures d == c {
      var i :| 0 <= i < |CategoryAdvice(results, d)| && CategoryAdvice(results, d)[i] == a;
    }
  }

  /**
   * A category adds its low message iff its score is below 40 and its mid
   * message iff its score is from 40 to below 60; a missing category adds neither.
   */
  lemma CategoryMessages(results: Scores, answers: map<string, int>, c: Category)
    ensures Low(c) in Advise(results, answers) <==>
              Lookup(results, c.Name()).Some? && Lookup(results, c.Name()).value < LowThreshold
    ensures Mid(c) in Advise(results, answers) <==>
              Lookup(results, c.Name()).Some? && LowThreshold <= Lookup(results, c.Name()).value < MidThreshold
  {
    AdviseMembers(results, answers, Low(c));
    AdviseMembers(results, answers, Mid(c));
    OtherParts(results, answers, c, Low(c));
    OtherParts(results, answers, c, Mid(c));
    OwnPart(results, c);
  }

  /** The sleep and nutrition messages depend only on their answer being present and at most 2. */
  lemma AnswerMessages(results: Scores, answers: map<string, int>)
    ensures Sleep in Advise(results, answers) <==> "fisico_3" in answers && answers["fisico_3"] <= 2
    ensures Nutrition in Advise(results, answers) <==> "fisico_5" in answers && answers["fisico_5"] <= 2
  {
    AdviseMembers(results, answers, Sleep);
    AdviseMembers(results, answers, Nutrition);
    BodyMembers(results, answers, Sleep);
    BodyMembers(results, answers, Nutrition);
  }

  /** The congratulations close the list iff every score is at least 60; the list is never empty. */
  lemma ClosingMessages(results: Scores, answers: map<string, int>)
    ensures Congratulations in Advise(results, answers) <==> AllAtLeastMid(results)
    ensures AllAtLeastMid(results) ==> Advise(results, answers)[|Advise(results, answers)| - 1] == Congratulations
    ensures |Advise(results, answers)| > 0
  {
    AdviseMembers(results, answers, Congratulations);
    BodyMembers(results, answers, Congratulations);
  }

  /**
   * When the scores carry the five catalog categories, any score below 60 adds
   * a category message, so the fallback message is never produced.
   */
  lemma FallbackUnreachable(results: Scores, answers: map<string, int>)
    requires Keys(results) == CategoryNames()
    ensures Fallback !in Advise(results, answers)
  {
    AdviseMembers(results, answers, Fallback);
    BodyMembers(results, answers, Fallback);
    if !AllAtLeastMid(results) {
      var i :| 0 <= i < |results| && results[i].1 < MidThreshold;
      CatalogShape();
      var c := Sections[i].category;
      assert results[i].0 == c.Name();
      LookupDistinct(results, i);
      CategoryMessages(results, answers, c);
      var a := if results[i].1 < LowThreshold then Low(c) else Mid(c);
      assert a in Advise(results, answers);
      AdviseMembers(results, answers, a);
    }
  }

  /** With every score at least 60 and no low sleep or nutrition answer, the congratulations are all there is. */
  lemma OnlyCongratulations(results: Scores, answers: map<string, int>)
    requires AllAtLeastMid(results)
    requires "fisico_3" in answers ==> answers["fisico_3"] > 2
    requires "fisico_5" in answers ==> answers["fisico_5"] > 2
    ensures Advise(results, answers) == [Congratulations]
  {
    forall c: Category ensures CategoryAdvice(results, c) == [] {
      var v := Lookup(results, c.Name());
      if v.Some? {
        var k :| 0 <= k < |results| && results[k] == (c.Name(), v.value);
      }
    }
    assert Body(results, answers) == [];
  }
}
