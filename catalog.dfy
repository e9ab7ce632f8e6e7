/**
 * The questionnaire catalog: five categories in a fixed order, each with five
 * questions answered on a 1-5 scale, and the category score maps built from it.
 */
module Catalog {
  import opened Wrappers
  import opened Strings
  import opened Lists

  datatype Category = Energetico | Emocional | Mental | Fisico | Espiritual {
    /** The key under which the category is stored. */
    function Name(): string {
      match this
      case Energetico => "energetico"
      case Emocional => "emocional"
      case Mental => "mental"
      case Fisico => "fisico"
      case Espiritual => "espiritual"
    }
  }

  /** The four answer-option lists; each offers the values "1" to "5", only the labels differ. */
  datatype Scale = Quality | Frequency | Generic | YesNoFrequency

  datatype Question = Question(id: string, scale: Scale)

  datatype Section = Section(category: Category, questions: seq<Question>)

  /** The id of question `k` (from 1) of a category, as in "fisico_3". */
  function QuestionId(c: Category, k: nat): (id: string)
    requires 1 <= k <= 9
    ensures |id| == |c.Name()| + 2 && id[..|c.Name()|] == c.Name() && id[|id| - 1] == DigitChar(k)
  {
    c.Name() + "_" + [DigitChar(k)]
  }

  /** The catalog, in the order in which the source iterates over it. */
  const Sections: seq<Section> := [
    Section(Energetico, [
      Question(QuestionId(Energetico, 1), Quality), Question(QuestionId(Energetico, 2), Frequency),
      Question(QuestionId(Energetico, 3), Quality), Question(QuestionId(Energetico, 4), Generic),
      Question(QuestionId(Energetico, 5), Quality)]),
    Section(Emocional, [
      Question(QuestionId(Emocional, 1), Quality), Question(QuestionId(Emocional, 2), Frequency),
      Question(QuestionId(Emocional, 3), YesNoFrequency), Question(QuestionId(Emocional, 4), Quality),
      Question(QuestionId(Emocional, 5), YesNoFrequency)]),
    Section(Mental, [
      Question(QuestionId(Mental, 1), Quality), Question(QuestionId(Mental, 2), Frequency),
      Question(QuestionId(Mental, 3), YesNoFrequency), Question(QuestionId(Mental, 4), Quality),
      Question(QuestionId(Mental, 5), YesNoFrequency)]),
    Section(Fisico, [
      Question(QuestionId(Fisico, 1), Quality), Question(QuestionId(Fisico, 2), Frequency),
      Question(QuestionId(Fisico, 3), Quality), Question(QuestionId(Fisico, 4), YesNoFrequency),
      Question(QuestionId(Fisico, 5), Quality)]),
    Section(Espiritual, [
      Question(QuestionId(Espiritual, 1), YesNoFrequency), Question(QuestionId(Espiritual, 2), Frequency),
      Question(QuestionId(Espiritual, 3), YesNoFrequency), Question(QuestionId(Espiritual, 4), Quality),
      Question(QuestionId(Espiritual, 5), YesNoFrequency)])
  ]

  /** The category keys in catalog order (`Object.keys(quantumQuestions)`). */
  function CategoryNames(): (r: seq<string>)
    ensures |r| == |Sections|
    ensures forall i :: 0 <= i < |r| ==> r[i] == Sections[i].category.Name()
  {
    seq(|Sections|, i requires 0 <= i < |Sections| => Sections[i].category.Name())
  }

  /** Every question id of the catalog, category by category (`Object.values(quantumQuestions).flat()`). */
  function AllIds(sections: seq<Section>): seq<string>
  {
    if sections == [] then []
    else Ids(sections[0].questions) + AllIds(sections[1..])
  }

  function IdOf(q: Question): string {
    q.id
  }

  function Ids(qs: seq<Question>): seq<string> {
    Project(qs, IdOf)
  }

  /** `totalQuestions`. */
  function TotalQuestions(): nat {
    |AllIds(Sections)|
  }

  /** The option value strings every scale offers. */
  function OptionValues(scale: Scale): seq<string> {
    ["1", "2", "3", "4", "5"]
  }

  /** Distinct categories have distinct names. */
  lemma NameInjective(c: Category, d: Category)
    requires c.Name() == d.Name()
    ensures c == d
  {
  }

  /** `x` is shaped like an id of category `c`: its name followed by two characters. */
  predicate BelongsTo(x: string, c: Category) {
    |x| == |c.Name()| + 2 && x[..|c.Name()|] == c.Name()
  }

  lemma BelongsUnique(x: string, c: Category, d: Category)
    requires BelongsTo(x, c) && BelongsTo(x, d)
    ensures c == d
  {
    assert |c.Name()| == |d.Name()|;
    NameInjective(c, d);
  }

  /** A section's questions carry its ids, numbered from 1. */
  predicate SectionOk(sec: Section) {
    |sec.questions| <= 9
    && forall k :: 0 <= k < |sec.questions| ==> sec.questions[k].id == QuestionId(sec.category, k + 1)
  }

  lemma SectionIds(sec: Section)
    requires SectionOk(sec)
    ensures Distinct(Ids(sec.questions))
    ensures forall x :: x in Ids(sec.questions) ==> BelongsTo(x, sec.category)
  {
    var ids := Ids(sec.questions);
    forall a, b | 0 <= a < b < |ids| ensures ids[a] != ids[b] {
      assert ids[a][|ids[a]| - 1] == DigitChar(a + 1) && ids[b][|ids[b]| - 1] == DigitChar(b + 1);
    }
  }

  /** The sections' ids are well formed and no category repeats. */
  predicate WellFormed(sections: seq<Section>) {
    (forall i :: 0 <= i < |sections| ==> SectionOk(sections[i]))
    && (forall i, j :: 0 <= i < j < |sections| ==> sections[i].category != sections[j].category)
  }

  predicate InSomeSection(x: string, sections: seq<Section>) {
    exists j :: 0 <= j < |sections| && BelongsTo(x, sections[j].category)
  }

  lemma {:induction false} AllIdsDistinct(sections: seq<Section>)
    requires WellFormed(sections)
    ensures Distinct(AllIds(sections))
    ensures forall x :: x in AllIds(sections) ==> InSomeSection(x, sections)
  {
    if sections != [] {
      var c := sections[0].category;
      var head := Ids(sections[0].questions);
      var tail := sections[1..];
      var rest := AllIds(tail);
      assert WellFormed(tail) by {
        forall i | 0 <= i < |tail| ensures SectionOk(tail[i]) {
          assert tail[i] == sections[i + 1];
        }
      }
      AllIdsDistinct(tail);
      SectionIds(sections[0]);
      forall x | x in rest ensures x !in head {
        assert InSomeSection(x, tail);
        var j :| 0 <= j < |tail| && BelongsTo(x, tail[j].category);
        assert tail[j] == sections[j + 1];
        if x in head { BelongsUnique(x, c, tail[j].category); }
      }
      DistinctConcat(head, rest);
      forall x | x in head + rest ensures InSomeSection(x, sections) {
        if x in head {
          assert BelongsTo(x, sections[0].category);
        } else {
          assert InSomeSection(x, tail);
          var j :| 0 <= j < |tail| && BelongsTo(x, tail[j].category);
          assert tail[j] == sections[j + 1];
        }
      }
    }
  }

  /** Every catalog question's id is among all the ids. */
  lemma {:induction false} QuestionInAllIds(sections: seq<Section>, i: nat, k: nat)
    requires i < |sections| && k < |sections[i].questions|
    ensures sections[i].questions[k].id in AllIds(sections)
  {
    if i == 0 {
      assert Ids(sections[0].questions)[k] == sections[0].questions[k].id;
    } else {
      QuestionInAllIds(sections[1..], i - 1, k);
      assert sections[1..][i - 1] == sections[i];
    }
  }

  /** Every id among all the ids belongs to some catalog question. */
  lemma {:induction false} AllIdsFromQuestions(sections: seq<Section>, id: string)
    requires id in AllIds(sections)
    ensures exists i, k :: 0 <= i < |sections| && 0 <= k < |sections[i].questions| && sections[i].questions[k].id == id
  {
    var head := Ids(sections[0].questions);
    if id in head {
      var k :| 0 <= k < |head| && head[k] == id;
      assert sections[0].questions[k].id == id;
    } else {
      AllIdsFromQuestions(sections[1..], id);
      var i, k :| 0 <= i < |sections[1..]| && 0 <= k < |sections[1..][i].questions| && sections[1..][i].questions[k].id == id;
      assert sections[i + 1].questions[k].id == id;
    }
  }

  lemma {:induction false} AllIdsLength(sections: seq<Section>)
    requires forall i :: 0 <= i < |sections| ==> |sections[i].questions| == 5
    ensures |AllIds(sections)| == 5 * |sections|
  {
    if sections != [] { AllIdsLength(sections[1..]); }
  }

  lemma SectionsWellFormed()
    ensures WellFormed(Sections)
  {
    forall i | 0 <= i < |Sections| ensures SectionOk(Sections[i]) {
      SectionWellFormed(i);
    }
  }

  lemma SectionWellFormed(i: nat)
    requires i < |Sections|
    ensures SectionOk(Sections[i])
  {
    if i == 0 {
      FiveQuestionsOk(Energetico, Quality, Frequency, Quality, Generic, Quality);
    } else if i == 1 {
      FiveQuestionsOk(Emocional, Quality, Frequency, YesNoFrequency, Quality, YesNoFrequency);
    } else if i == 2 {
      FiveQuestionsOk(Mental, Quality, Frequency, YesNoFrequency, Quality, YesNoFrequency);
    } else if i == 3 {
      FiveQuestionsOk(Fisico, Quality, Frequency, Quality, YesNoFrequency, Quality);
    } else {
      FiveQuestionsOk(Espiritual, YesNoFrequency, Frequency, YesNoFrequency, Quality, YesNoFrequency);
    }
  }

  /** A section whose five questions carry the ids 1 to 5 of its category is well formed. */
  lemma FiveQuestionsOk(c: Category, s1: Scale, s2: Scale, s3: Scale, s4: Scale, s5: Scale)
    ensures SectionOk(Section(c, [Question(QuestionId(c, 1), s1), Question(QuestionId(c, 2), s2),
                                  Question(QuestionId(c, 3), s3), Question(QuestionId(c, 4), s4),
                                  Question(QuestionId(c, 5), s5)]))
  {
  }

  /** The shape of the catalog: five distinct categories, five questions each, 25 distinct ids. */
  lemma CatalogShape()
    ensures |Sections| == 5 && CategoryNames() == ["energetico", "emocional", "mental", "fisico", "espiritual"]
    ensures forall i :: 0 <= i < |Sections| ==> |Sections[i].questions| == 5
    ensures TotalQuestions() == 25
    ensures Distinct(AllIds(Sections)) && Distinct(CategoryNames())
  {
    AllIdsLength(Sections);
    SectionsWellFormed();
    AllIdsDistinct(Sections);
  }

  /** Every option value parses (`parseInt`) to a number from 1 to 5. */
  lemma OptionValuesParse(scale: Scale, k: nat)
    requires k < |OptionValues(scale)|
    ensures ParseInt(OptionValues(scale)[k]) == Some(k + 1)
  {
    IntToStringRoundTrip(k + 1);
    assert OptionValues(scale)[k] == IntToString(k + 1);
  }

  /** Category scores keyed by category name, in key order (a JavaScript object of numbers). */
  type Scores = seq<(string, int)>

  function KeyOf(e: (string, int)): string {
    e.0
  }

  function Keys(s: Scores): seq<string> {
    Project(s, KeyOf)
  }

  /** The value stored under `k` (`scores[k]`), `None` for `undefined`. */
  function Lookup(s: Scores, k: string): (r: Option<int>)
    ensures r.None? <==> k !in Keys(s)
    ensures r.Some? ==> (k, r.value) in s
  {
    if s == [] then None
    else
      assert Keys(s) == [s[0].0] + Keys(s[1..]);
      if s[0].0 == k then Some(s[0].1) else Lookup(s[1..], k)
  }

  /** With distinct keys, the lookup finds the value stored at each position. */
  lemma {:induction false} LookupDistinct(s: Scores, i: nat)
    requires i < |s| && Distinct(Keys(s))
    ensures Lookup(s, s[i].0) == Some(s[i].1)
  {
    if i > 0 {
      assert Keys(s[1..]) == Keys(s)[1..];
      assert Keys(s)[0] != Keys(s)[i];
      LookupDistinct(s[1..], i - 1);
    }
  }
}
