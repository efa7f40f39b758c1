/**
 * Building the questions of a game before it starts: the translated
 * four-option quiz questions (`QuizSession.preload_questions`), the flag
 * questions (`FlagSession.preload_questions`) and the drawing of open
 * questions from the bank (`QuestionSession.preload_questions`).
 * Translation is a parameter; every `random.shuffle` and `random.sample`
 * is an input (see `Common.Permute` and `Common.Sample`).
 */
module Preparation {
  import opened Common
  import opened Selection
  import opened Formats

  /** A question shown with four answer buttons. */
  datatype ChoiceQuestion = ChoiceQuestion(prompt: string, options: seq<string>, correctIndex: nat, correctText: string)

  /** A prepared quiz question keeps where it came from, for the statistics. */
  datatype QuizQuestion = QuizQuestion(choice: ChoiceQuestion, source: Source, family: string)

  /** The two things every choice question promises its round: four options, and the right one at `correctIndex`. */
  predicate WellFormed(q: ChoiceQuestion) {
    |q.options| == 4 && q.correctIndex < 4 && q.options[q.correctIndex] == q.correctText
  }

  // ---------------------------------------------------------------------
  // Quiz questions
  // ---------------------------------------------------------------------

  /** `translate_en_to_fa(x) or x`: an empty translation falls back to the English text. */
  function Tr(translate: string -> string, x: string): (r: string)
    ensures r == [] ==> x == []
    ensures translate(x) != [] ==> r == translate(x)
  {
    if translate(x) == [] then x else translate(x)
  }

  /** Every text translated, in order. */
  function TrAll(translate: string -> string, xs: seq<string>): seq<string> {
    seq(|xs|, k requires 0 <= k < |xs| => Tr(translate, xs[k]))
  }

  /** Translating shuffled texts gives the translations of the texts, each as often. */
  lemma TrAllPermute(translate: string -> string, xs: seq<string>, perm: seq<nat>)
    ensures multiset(TrAll(translate, Permute(xs, perm))) == multiset(TrAll(translate, xs))
  {
    assert TrAll(translate, Permute(xs, perm)) == Permute(TrAll(translate, xs), perm);
    PermuteMultiset(TrAll(translate, xs), perm);
  }

  /** The shuffle applied to the options of the `i`-th candidate. */
  function ShuffleFor(shuffles: seq<seq<nat>>, i: nat): seq<nat> {
    if i < |shuffles| then shuffles[i] else []
  }

  /** The options of a candidate: its incorrect answers followed by the correct one. */
  function OptionsEn(c: Candidate): seq<string> {
    c.raw.incorrects + [c.raw.correct]
  }

  /** Every option fits on its button once translated. */
  predicate OptionsFit(translate: string -> string, options: seq<string>) {
    forall x :: x in options ==> |Tr(translate, x)| <= MaxOptionChars
  }

  /**
   * What the loop body of `preload_questions` makes of one candidate, or
   * `None` when it skips it.
   */
  function PrepareOne(c: Candidate, perm: seq<nat>, translate: string -> string): Option<QuizQuestion> {
    if |c.raw.question| > MaxQuestionChars * 2 then None
    else
      var optionsEn := OptionsEn(c);
      if |optionsEn| != 4 then None
      else
        var shuffled := Permute(optionsEn, perm);
        var optionsFa := TrAll(translate, shuffled);
        if exists k :: 0 <= k < 4 && |optionsFa[k]| > MaxOptionChars then None
        else
          var ci := FirstIndex(shuffled, c.raw.correct);
          Some(QuizQuestion(ChoiceQuestion(Tr(translate, c.raw.question), optionsFa, ci, optionsFa[ci]), c.origin, c.raw.family))
  }

  /**
   * A candidate is kept exactly when its English question has at most 160
   * characters, it has three incorrect answers and every translated option
   * fits; the kept question shows the translated options, the translated
   * correct answer among them at `correctIndex`.
   */
  lemma PrepareOneSpec(c: Candidate, perm: seq<nat>, translate: string -> string)
    ensures PrepareOne(c, perm, translate).Some? <==>
      |c.raw.question| <= MaxQuestionChars * 2 && |c.raw.incorrects| == 3 && OptionsFit(translate, OptionsEn(c))
    ensures PrepareOne(c, perm, translate).Some? ==>
      var p := PrepareOne(c, perm, translate).value;
      && WellFormed(p.choice)
      && p.choice.correctText == Tr(translate, c.raw.correct)
      && p.choice.prompt == Tr(translate, c.raw.question)
      && multiset(p.choice.options) == multiset(TrAll(translate, OptionsEn(c)))
      && (forall o :: o in p.choice.options <==> exists x :: x in OptionsEn(c) && o == Tr(translate, x))
      && (forall o :: o in p.choice.options ==> |o| <= MaxOptionChars)
      && p.source == c.origin && p.family == c.raw.family
  {
    var optionsEn := OptionsEn(c);
    if |c.raw.question| <= MaxQuestionChars * 2 && |optionsEn| == 4 {
      var shuffled := Permute(optionsEn, perm);
      var optionsFa := TrAll(translate, shuffled);
      TranslatedOptions(optionsEn, shuffled, optionsFa, translate);
      TrAllPermute(translate, optionsEn, perm);
      assert c.raw.correct in shuffled by {
        assert optionsEn[3] == c.raw.correct;
      }
    }
  }

  /** The translated options of a shuffle are the translations of the options, and fit exactly when they all do. */
  lemma TranslatedOptions(optionsEn: seq<string>, shuffled: seq<string>, optionsFa: seq<string>, translate: string -> string)
    requires |shuffled| == |optionsFa| && forall x :: x in shuffled <==> x in optionsEn
    requires forall k :: 0 <= k < |optionsFa| ==> optionsFa[k] == Tr(translate, shuffled[k])
    ensures (exists k :: 0 <= k < |optionsFa| && |optionsFa[k]| > MaxOptionChars) <==> !OptionsFit(translate, optionsEn)
    ensures forall o :: o in optionsFa <==> exists x :: x in optionsEn && o == Tr(translate, x)
  {
    if !OptionsFit(translate, optionsEn) {
      var x :| x in optionsEn && |Tr(translate, x)| > MaxOptionChars;
      assert x in shuffled;
      var k :| 0 <= k < |shuffled| && shuffled[k] == x;
      assert |optionsFa[k]| > MaxOptionChars;
    }
    if exists k :: 0 <= k < |optionsFa| && |optionsFa[k]| > MaxOptionChars {
      var k :| 0 <= k < |optionsFa| && |optionsFa[k]| > MaxOptionChars;
      assert shuffled[k] in optionsEn;
    }
    forall o ensures o in optionsFa <==> exists x :: x in optionsEn && o == Tr(translate, x) {
      if o in optionsFa {
        var k :| 0 <= k < |optionsFa| && optionsFa[k] == o;
        assert shuffled[k] in optionsEn;
      }
      if exists x :: x in optionsEn && o == Tr(translate, x) {
        var x :| x in optionsEn && o == Tr(translate, x);
        assert x in shuffled;
        var k :| 0 <= k < |shuffled| && shuffled[k] == x;
        assert optionsFa[k] == o;
      }
    }
  }

  /** What `preload_questions` tries for each candidate, in order. */
  function Attempts(raws: seq<Candidate>, shuffles: seq<seq<nat>>, translate: string -> string): seq<Option<QuizQuestion>> {
    seq(|raws|, i requires 0 <= i < |raws| => PrepareOne(raws[i], ShuffleFor(shuffles, i), translate))
  }

  /** The inner loop of `preload_questions`: translates the options and notes whether one is too long. */
  method TranslateOptions(optionsEn: seq<string>, translate: string -> string) returns (optionsFa: seq<string>, tooLong: bool)
    ensures |optionsFa| == |optionsEn|
    ensures forall k :: 0 <= k < |optionsEn| ==> optionsFa[k] == Tr(translate, optionsEn[k])
    ensures tooLong <==> exists k :: 0 <= k < |optionsFa| && |optionsFa[k]| > MaxOptionChars
  {
    optionsFa := [];
    tooLong := false;
    for i := 0 to |optionsEn|
      invariant |optionsFa| == i
      invariant forall k :: 0 <= k < i ==> optionsFa[k] == Tr(translate, optionsEn[k])
      invariant tooLong <==> exists k :: 0 <= k < i && |optionsFa[k]| > MaxOptionChars
    {
      var optFa := Tr(translate, optionsEn[i]);
      if |optFa| > MaxOptionChars {
        tooLong := true;
      }
      optionsFa := optionsFa + [optFa];
    }
  }

  /**
   * One pass of the preparation loop of `preload_questions`: the checks
   * in the order the program makes them, `None` where it `continue`s.
   */
  method PrepareCandidate(raw: Candidate, perm: seq<nat>, translate: string -> string) returns (r: Option<QuizQuestion>)
    ensures r == PrepareOne(raw, perm, translate)
  {
    if |raw.raw.question| > MaxQuestionChars * 2 {
      return None;
    }
    var questionFa := Tr(translate, raw.raw.question);
    var optionsEn := raw.raw.incorrects + [raw.raw.correct];
    if |optionsEn| != 4 {
      return None;
    }
    optionsEn := Permute(optionsEn, perm);
    assert raw.raw.correct in optionsEn by {
      assert OptionsEn(raw)[3] == raw.raw.correct;
    }
    var correctIndex := FirstIndex(optionsEn, raw.raw.correct);
    var optionsFa, tooLong := TranslateOptions(optionsEn, translate);
    assert optionsFa == TrAll(translate, optionsEn);
    if tooLong {
      return None;
    }
    return Some(QuizQuestion(ChoiceQuestion(questionFa, optionsFa, correctIndex, optionsFa[correctIndex]), raw.origin, raw.raw.family));
  }

  /**
   * The preparation loop of `QuizSession.preload_questions` over the
   * selected candidates `raws`. It keeps the first `num` candidates that
   * survive `PrepareOne`, fails when none does, and on success rebinds the
   * number of questions to how many were prepared.
   */
  method PrepareQuizQuestions(num: int, raws: seq<Candidate>, shuffles: seq<seq<nat>>, translate: string -> string)
    returns (ok: bool, prepared: seq<QuizQuestion>, numQuestions: int)
    ensures var all := Present(Attempts(raws, shuffles, translate));
      |prepared| == Min(Max(num, 0), |all|) && prepared == all[..|prepared|]
    ensures ok <==> prepared != []
    ensures numQuestions == if ok then |prepared| else num
  {
    ghost var attempts := Attempts(raws, shuffles, translate);
    prepared := [];
    if raws == [] {
      assert Present(attempts) == [];
      return false, [], num;
    }
    var i := 0;
    while i < |raws|
      invariant 0 <= i <= |raws|
      invariant prepared == Present(attempts[..i])
      invariant |prepared| <= Max(num, 0)
      invariant |prepared| < Max(num, 0) || i == |raws| || |prepared| == Max(num, 0)
    {
      if |prepared| >= num {
        break;
      }
      PresentStep(attempts, i);
      var pq := PrepareCandidate(raws[i], ShuffleFor(shuffles, i), translate);
      if pq.Some? {
        prepared := prepared + [pq.value];
      }
      i := i + 1;
    }
    PresentPrefix(attempts, i);
    if i == |raws| {
      assert attempts[..i] == attempts;
    }
    ok := prepared != [];
    numQuestions := if ok then |prepared| else num;
  }

  /** Every question the preparation can yield is well formed and its options fit. */
  lemma PreparedWellFormed(raws: seq<Candidate>, shuffles: seq<seq<nat>>, translate: string -> string, p: QuizQuestion)
    requires p in Present(Attempts(raws, shuffles, translate))
    ensures WellFormed(p.choice)
    ensures forall o :: o in p.choice.options ==> |o| <= MaxOptionChars
    ensures exists c :: c in raws && p.choice.correctText == Tr(translate, c.raw.correct) && p.family == c.raw.family
  {
    var attempts := Attempts(raws, shuffles, translate);
    PresentMembers(attempts, p);
    var i :| 0 <= i < |attempts| && attempts[i] == Some(p);
    PrepareOneSpec(raws[i], ShuffleFor(shuffles, i), translate);
  }

  /** How many prepared questions have family `f`. */
  function CountFamilies(s: seq<QuizQuestion>, f: string): nat {
    if s == [] then 0 else CountFamilies(s[..|s| - 1], f) + (if s[|s| - 1].family == f then 1 else 0)
  }

  /** How many prepared questions came from `src`. */
  function CountSources(s: seq<QuizQuestion>, src: Source): nat {
    if s == [] then 0 else CountSources(s[..|s| - 1], src) + (if s[|s| - 1].source == src then 1 else 0)
  }

  /** `d[k] = d.get(k, 0) + 1` counts one more `k`. */
  lemma Bump<K>(d: seq<(K, int)>, k: K, e: seq<(K, int)>)
    requires DistinctKeys(d) && e == Put(d, k, Lookup(d, k, 0) + 1)
    ensures DistinctKeys(e) && Keys(e) == Keys(d) + {k}
    ensures forall j :: Lookup(e, j, 0) == Lookup(d, j, 0) + (if j == k then 1 else 0)
  {
    PutSpec(d, k, Lookup(d, k, 0) + 1);
  }

  /** What one more prepared question adds to the families, the sources and their counts. */
  lemma StatisticsStep(prepared: seq<QuizQuestion>, i: nat)
    requires i < |prepared|
    ensures (set q | q in prepared[..i + 1] :: q.family) == (set q | q in prepared[..i] :: q.family) + {prepared[i].family}
    ensures (set q | q in prepared[..i + 1] :: q.source) == (set q | q in prepared[..i] :: q.source) + {prepared[i].source}
    ensures forall f :: CountFamilies(prepared[..i + 1], f) == CountFamilies(prepared[..i], f) + (if prepared[i].family == f then 1 else 0)
    ensures forall src :: CountSources(prepared[..i + 1], src) == CountSources(prepared[..i], src) + (if prepared[i].source == src then 1 else 0)
  {
    assert prepared[..i + 1] == prepared[..i] + [prepared[i]];
    assert prepared[..i + 1][..i] == prepared[..i];
  }

  /** The `family_stats` and `source_stats` dictionaries built after a successful preparation. */
  method Statistics(prepared: seq<QuizQuestion>) returns (families: seq<(string, int)>, sources: seq<(Source, int)>)
    ensures DistinctKeys(families) && DistinctKeys(sources)
    ensures Keys(families) == set q | q in prepared :: q.family
    ensures Keys(sources) == set q | q in prepared :: q.source
    ensures forall f :: Lookup(families, f, 0) == CountFamilies(prepared, f)
    ensures forall src :: Lookup(sources, src, 0) == CountSources(prepared, src)
  {
    families, sources := [], [];
    for i := 0 to |prepared|
      invariant DistinctKeys(families) && DistinctKeys(sources)
      invariant Keys(families) == set q | q in prepared[..i] :: q.family
      invariant Keys(sources) == set q | q in prepared[..i] :: q.source
      invariant forall f :: Lookup(families, f, 0) == CountFamilies(prepared[..i], f)
      invariant forall src :: Lookup(sources, src, 0) == CountSources(prepared[..i], src)
    {
      var pq := prepared[i];
      StatisticsStep(prepared, i);
      var families', sources' := Put(families, pq.family, Lookup(families, pq.family, 0) + 1), Put(sources, pq.source, Lookup(sources, pq.source, 0) + 1);
      Bump(families, pq.family, families');
      Bump(sources, pq.source, sources');
      families, sources := families', sources';
    }
    assert prepared[..|prepared|] == prepared;
  }

  // ---------------------------------------------------------------------
  // Flag questions
  // ---------------------------------------------------------------------

  datatype Country = Country(nameFa: string, flagUrl: string)

  /** `[c for c in all_countries if c is not correct_country]`, as indices. */
  function WrongPool(n: nat, c: nat): (pool: seq<nat>)
    requires c < n
    ensures |pool| == n - 1
    ensures forall k :: k in pool <==> 0 <= k < n && k != c
    ensures Distinct(pool)
  {
    var pool := seq(n - 1, i requires 0 <= i < n - 1 => if i < c then i else i + 1);
    assert forall i :: 0 <= i < n - 1 ==> pool[i] < n && pool[i] != c;
    forall k: nat | k < n && k != c ensures k in pool {
      if k < c {
        assert pool[k] == k;
      } else {
        assert pool[k - 1] == k;
      }
    }
    pool
  }

  /** The three wrong countries drawn for the question about country `c`. */
  function WrongChoice(n: nat, c: nat, pick: seq<nat>): (w: seq<nat>)
    requires 4 <= n && c < n
    ensures |w| == 3 && Distinct(w)
    ensures forall k :: k in w ==> k < n && k != c
  {
    var pool := WrongPool(n, c);
    var s := Sample(pick, n - 1, 3);
    var w := seq(3, k requires 0 <= k < 3 => pool[s[k]]);
    assert forall k :: k in w ==> k in pool;
    w
  }

  /** `[correct_country.name_fa] + [w.name_fa for w in wrong_countries]` */
  function NameOptions(countries: seq<Country>, c: nat, w: seq<nat>): (r: seq<string>)
    requires c < |countries| && |w| == 3 && forall k :: k in w ==> k < |countries|
    ensures |r| == 4 && r[0] == countries[c].nameFa
    ensures forall o :: o in r <==> o == countries[c].nameFa || exists k :: k in w && o == countries[k].nameFa
  {
    assert w[0] in w && w[1] in w && w[2] in w;
    var r := [countries[c].nameFa, countries[w[0]].nameFa, countries[w[1]].nameFa, countries[w[2]].nameFa];
    assert forall k :: k in w ==> k == w[0] || k == w[1] || k == w[2];
    r
  }

  /** The question built for country `c`: its flag, its name and three wrong names, shuffled. */
  function FlagQuestion(countries: seq<Country>, c: nat, pick: seq<nat>, perm: seq<nat>): ChoiceQuestion
    requires 4 <= |countries| && c < |countries|
  {
    var name := countries[c].nameFa;
    var options := Permute(NameOptions(countries, c, WrongChoice(|countries|, c, pick)), perm);
    ChoiceQuestion(countries[c].flagUrl, options, FirstIndex(options, name), name)
  }

  /**
   * A flag question shows the country's flag; its options are the
   * country's name and the names of the three distinct other countries
   * `WrongChoice` draws, and the right answer is the country's name.
   */
  lemma FlagQuestionSpec(countries: seq<Country>, c: nat, pick: seq<nat>, perm: seq<nat>)
    requires 4 <= |countries| && c < |countries|
    ensures var q := FlagQuestion(countries, c, pick, perm);
      var w := WrongChoice(|countries|, c, pick);
      && WellFormed(q)
      && q.prompt == countries[c].flagUrl
      && q.correctText == countries[c].nameFa
      && forall o :: o in q.options <==> o == countries[c].nameFa || exists k :: k in w && o == countries[k].nameFa
  {
  }

  /** The loop of `FlagSession.preload_questions`: one question per drawn country. */
  method BuildFlagQuestions(countries: seq<Country>, selected: seq<nat>, wrongPicks: seq<seq<nat>>, shuffles: seq<seq<nat>>)
    returns (prepared: seq<ChoiceQuestion>)
    requires 4 <= |countries|
    requires forall j :: 0 <= j < |selected| ==> selected[j] < |countries|
    ensures |prepared| == |selected|
    ensures forall j :: 0 <= j < |selected| ==>
      prepared[j] == FlagQuestion(countries, selected[j], ShuffleFor(wrongPicks, j), ShuffleFor(shuffles, j))
  {
    prepared := [];
    for j := 0 to |selected|
      invariant |prepared| == j
      invariant forall m :: 0 <= m < j ==>
        prepared[m] == FlagQuestion(countries, selected[m], ShuffleFor(wrongPicks, m), ShuffleFor(shuffles, m))
    {
      var correct := selected[j];
      var wrongCountries := WrongChoice(|countries|, correct, ShuffleFor(wrongPicks, j));
      var options := NameOptions(countries, correct, wrongCountries);
      options := Permute(options, ShuffleFor(shuffles, j));
      var correctIndex := FirstIndex(options, countries[correct].nameFa);
      var pq := ChoiceQuestion(countries[correct].flagUrl, options, correctIndex, countries[correct].nameFa);
      prepared := prepared + [pq];
    }
  }

  /**
   * `FlagSession.preload_questions` over the loaded countries: at least
   * four are needed; then `min(num, len(countries))` distinct countries are
   * drawn and each becomes one question. `chosen` are the drawn countries.
   */
  method PrepareFlagQuestions(num: int, countries: seq<Country>, pick: seq<nat>, wrongPicks: seq<seq<nat>>, shuffles: seq<seq<nat>>)
    returns (ok: bool, prepared: seq<ChoiceQuestion>, numQuestions: int, ghost chosen: seq<nat>)
    requires num >= 1
    ensures ok <==> |countries| >= 4
    ensures !ok ==> prepared == [] && numQuestions == num
    ensures ok ==>
      && numQuestions == Min(num, |countries|) == |prepared| == |chosen|
      && chosen == Sample(pick, |countries|, numQuestions)
      && IsSample(chosen, |countries|, numQuestions)
      && forall j :: 0 <= j < |prepared| ==>
           prepared[j] == FlagQuestion(countries, chosen[j], ShuffleFor(wrongPicks, j), ShuffleFor(shuffles, j))
  {
    if |countries| < 4 {
      return false, [], num, [];
    }
    numQuestions := num;
    if numQuestions > |countries| {
      numQuestions := |countries|;
    }
    var selected := Sample(pick, |countries|, numQuestions);
    chosen := selected;
    prepared := BuildFlagQuestions(countries, selected, wrongPicks, shuffles);
    ok := true;
  }

  // ---------------------------------------------------------------------
  // Open questions
  // ---------------------------------------------------------------------

  /**
   * `QuestionSession.preload_questions`: fails on an empty bank; otherwise
   * caps the number of questions at the bank's size and takes that many
   * questions in the order of a shuffled list of bank indices. `picks` are
   * the bank positions taken.
   */
  method PreloadOpenQuestions(num: int, bank: seq<TxtQuestion>, perm: seq<nat>)
    returns (ok: bool, questions: seq<TxtQuestion>, numQuestions: int, ghost picks: seq<nat>)
    ensures ok <==> bank != []
    ensures !ok ==> questions == [] && numQuestions == num
    ensures ok ==>
      && numQuestions == Min(num, |bank|)
      && |questions| == |picks| == Max(numQuestions, 0)
      && picks == Permute(Range(|bank|), perm)[..|picks|]
      && Distinct(picks)
      && forall i :: 0 <= i < |questions| ==> picks[i] < |bank| && questions[i] == bank[picks[i]]
  {
    if bank == [] {
      return false, [], num, [];
    }
    numQuestions := num;
    if numQuestions > |bank| {
      numQuestions := |bank|;
    }
    var indices := Permute(Range(|bank|), perm);
    questions := [];
    var i := 0;
    while i < numQuestions
      invariant 0 <= i <= Max(numQuestions, 0)
      invariant |questions| == i
      invariant forall m :: 0 <= m < i ==> questions[m] == bank[indices[m]]
    {
      assert indices[i] in indices;
      questions := questions + [bank[indices[i]]];
      i := i + 1;
    }
    picks := indices[..i];
    assert forall m :: 0 <= m < i ==> picks[m] == indices[m] && indices[m] in indices;
    ok := true;
  }
}
