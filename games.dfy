/**
 * The game sessions and the per-channel registry: `QuizSession`,
 * `FlagSession` and `QuestionSession` as one class whose `mode` says
 * which, and the three `active_*` dictionaries with the commands that
 * fill, start and empty them. Each method is one stretch of the source
 * between two `await`s and changes the session's fields exactly as the
 * matching function of `Rounds` says.
 */
module Games {
  import opened Common
  import opened Selection
  import opened Formats
  import opened Preparation
  import opened Scores
  import opened Rounds

  class GameSession {
    const mode: Mode
    const channel: ChannelId
    var finished: bool
    var resolved: bool
    var started: bool
    var numQuestions: int
    var prepared: seq<ChoiceQuestion>
    var questions: seq<TxtQuestion>
    var asked: nat
    var index: nat
    var questionId: int
    var correctIndex: Option<nat>
    var correctText: Option<string>
    var correctEn: Option<string>
    var answered: set<UserId>
    var scores: Board
    var order: map<UserId, int>
    var step: int
    // Tallies of the prepared quiz questions by family and by source, shown
    // by `debugfamilies`; only a quiz's preparation sets them.
    var familyStats: seq<(string, int)>
    var sourceStats: seq<(Source, int)>

    function View(): Round
      reads this
    {
      Round(finished, resolved, started, numQuestions, prepared, questions, asked, index, questionId,
            correctIndex, correctText, correctEn, answered, LedgerView(scores, order, step))
    }

    ghost predicate Valid()
      reads this
    {
      Consistent(mode, View()) && numQuestions >= 1
    }

    constructor (mode: Mode, channel: ChannelId, num: int)
      requires num >= 1
      ensures this.mode == mode && this.channel == channel
      ensures Valid() && View() == Initial(num)
    {
      this.mode := mode;
      this.channel := channel;
      finished, resolved, started := false, false, false;
      numQuestions := num;
      prepared, questions := [], [];
      asked, index, questionId := 0, 0, 0;
      correctIndex, correctText, correctEn := None, None, None;
      answered := {};
      scores, order, step := [], map[], 0;
      familyStats, sourceStats := [], [];
    }

    // -------------------------------------------------------------------
    // preload_questions
    // -------------------------------------------------------------------

    /**
     * `QuizSession.preload_questions`: select candidates from the two
     * sources, prepare them, and on success rebind `num_questions` to how
     * many were prepared.
     */
    method PreloadQuiz(fetchTrivia: nat -> seq<RawQuestion>, fetchOpenTdb: nat -> seq<RawQuestion>, shuffles: Shuffles,
                       optionShuffles: seq<seq<nat>>, translate: string -> string)
      returns (ok: bool, quiz: seq<QuizQuestion>, ghost raws: seq<Candidate>, ghost phase1: nat, ghost phase2: nat)
      requires Valid() && mode == Quiz && prepared == [] && asked == 0
      modifies this
      ensures Valid()
      ensures View() == old(View()).(prepared := prepared, numQuestions := numQuestions)
      ensures Collected(old(numQuestions), fetchTrivia, fetchOpenTdb, raws, phase1, phase2)
      ensures var all := Present(Attempts(raws, optionShuffles, translate));
        |quiz| == Min(old(numQuestions), |all|) && quiz == all[..|quiz|]
      ensures prepared == Choices(quiz)
      ensures ok <==> prepared != []
      ensures ok ==> numQuestions == |prepared| <= old(numQuestions)
      ensures !ok ==> numQuestions == old(numQuestions) && familyStats == old(familyStats) && sourceStats == old(sourceStats)
      ensures forall q :: q in prepared ==> WellFormed(q) && forall o :: o in q.options ==> |o| <= MaxOptionChars
      ensures ok ==> DistinctKeys(familyStats) && forall f :: Lookup(familyStats, f, 0) == CountFamilies(quiz, f)
      ensures ok ==> DistinctKeys(sourceStats) && forall src :: Lookup(sourceStats, src, 0) == CountSources(quiz, src)
    {
      var n;
      ok, quiz, n, raws, phase1, phase2 := LoadQuiz(numQuestions, fetchTrivia, fetchOpenTdb, shuffles, optionShuffles, translate);
      KeepQuiz(ok, quiz, n);
    }

    /** The end of `QuizSession.preload_questions`: keep the prepared questions and, on success, their count and tallies. */
    method KeepQuiz(ok: bool, quiz: seq<QuizQuestion>, n: int)
      requires Valid() && mode == Quiz && prepared == [] && asked == 0
      requires (ok <==> quiz != []) && (ok ==> n == |quiz| <= numQuestions)
      requires forall q :: q in Choices(quiz) ==> WellFormed(q) && forall o :: o in q.options ==> |o| <= MaxOptionChars
      modifies this
      ensures Valid()
      ensures View() == old(View()).(prepared := Choices(quiz), numQuestions := if ok then n else old(numQuestions))
      ensures !ok ==> familyStats == old(familyStats) && sourceStats == old(sourceStats)
      ensures ok ==> DistinctKeys(familyStats) && forall f :: Lookup(familyStats, f, 0) == CountFamilies(quiz, f)
      ensures ok ==> DistinctKeys(sourceStats) && forall src :: Lookup(sourceStats, src, 0) == CountSources(quiz, src)
    {
      prepared := Choices(quiz);
      if !ok {
        return;
      }
      numQuestions := n;
      familyStats, sourceStats := Statistics(quiz);
    }

    /**
     * `FlagSession.preload_questions`: at least four countries are needed;
     * on success `num_questions` is rebound to how many were prepared.
     */
    method PreloadFlags(countries: seq<Country>, pick: seq<nat>, wrongPicks: seq<seq<nat>>, optionShuffles: seq<seq<nat>>)
      returns (ok: bool, ghost chosen: seq<nat>)
      requires Valid() && mode == Flags && prepared == [] && asked == 0 && numQuestions >= 1
      modifies this
      ensures Valid() && familyStats == old(familyStats) && sourceStats == old(sourceStats)
      ensures View() == old(View()).(prepared := prepared, numQuestions := numQuestions)
      ensures ok <==> |countries| >= 4
      ensures ok ==> numQuestions == |prepared| == Min(old(numQuestions), |countries|)
      ensures !ok ==> numQuestions == old(numQuestions) && prepared == []
      ensures ok ==>
        && chosen == Sample(pick, |countries|, numQuestions)
        && IsSample(chosen, |countries|, numQuestions)
        && forall j :: 0 <= j < |prepared| ==>
             prepared[j] == FlagQuestion(countries, chosen[j], ShuffleFor(wrongPicks, j), ShuffleFor(optionShuffles, j))
      ensures forall q :: q in prepared ==> WellFormed(q) && q.correctText in q.options
    {
      var flagQuestions, n;
      ok, flagQuestions, n, chosen := PrepareFlagQuestions(numQuestions, countries, pick, wrongPicks, optionShuffles);
      if !ok {
        return;
      }
      FlagQuestionsWellFormed(countries, chosen, wrongPicks, optionShuffles, flagQuestions);
      KeepFlags(flagQuestions, n);
    }

    /** The end of `FlagSession.preload_questions`: keep the questions and their count. */
    method KeepFlags(flagQuestions: seq<ChoiceQuestion>, n: int)
      requires Valid() && mode == Flags && prepared == [] && asked == 0 && n >= 1
      requires forall q :: q in flagQuestions ==> WellFormed(q) && q.correctText in q.options
      modifies this
      ensures Valid() && familyStats == old(familyStats) && sourceStats == old(sourceStats)
      ensures View() == old(View()).(prepared := flagQuestions, numQuestions := n)
    {
      prepared := flagQuestions;
      asked := 0;
      numQuestions := n;
    }

    /**
     * `QuestionSession.preload_questions`: fails on an empty bank;
     * otherwise draws `min(num_questions, len(bank))` distinct questions,
     * in the order of the shuffled bank positions. `picks` are the
     * positions taken.
     */
    method PreloadOpen(bank: seq<TxtQuestion>, perm: seq<nat>) returns (ok: bool, ghost picks: seq<nat>)
      requires Valid() && mode == Open && questions == [] && asked == 0 && index == 0
      modifies this
      ensures Valid() && familyStats == old(familyStats) && sourceStats == old(sourceStats)
      ensures View() == old(View()).(questions := questions, numQuestions := numQuestions)
      ensures ok <==> bank != []
      ensures !ok ==> questions == [] && numQuestions == old(numQuestions)
      ensures ok ==> numQuestions == Min(old(numQuestions), |bank|) && |questions| == |picks| == Max(numQuestions, 0)
      ensures ok ==>
        && picks == Permute(Range(|bank|), perm)[..|picks|]
        && Distinct(picks)
        && forall i :: 0 <= i < |questions| ==> picks[i] < |bank| && questions[i] == bank[picks[i]]
    {
      var drawn, n;
      ok, drawn, n, picks := PreloadOpenQuestions(numQuestions, bank, perm);
      if !ok {
        return;
      }
      questions := drawn;
      numQuestions := n;
    }

    // -------------------------------------------------------------------
    // Starting and presenting
    // -------------------------------------------------------------------

    /** The checks `start_cmd` makes of a quiz or flag session before it sets `started`. */
    method StartFromCommand() returns (outcome: Start)
      requires Valid() && mode != Open
      modifies this
      ensures Valid() && familyStats == old(familyStats) && sourceStats == old(sourceStats)
      ensures (View(), outcome) == StartChoice(old(View()))
    {
      if started {
        return AlreadyStarted;
      }
      if prepared == [] {
        return NotPrepared;
      }
      started := true;
      return Begin;
    }

    /** `QuestionSession.start`, up to its call of `send_next_question`. */
    method Start(bank: seq<TxtQuestion>, pick: seq<nat>) returns (outcome: Start)
      requires Valid() && mode == Open && numQuestions >= 1
      modifies this
      ensures Valid() && familyStats == old(familyStats) && sourceStats == old(sourceStats)
      ensures (View(), outcome) == StartOpen(old(View()), bank, pick)
    {
      if started {
        return AlreadyStarted;
      }
      started := true;
      if questions == [] {
        if bank == [] {
          return NotPrepared;
        }
        var n := Min(numQuestions, |bank|);
        var drawn := Sample(pick, |bank|, n);
        numQuestions := n;
        questions := seq(n, i requires 0 <= i < n => bank[drawn[i]]);
      }
      return Begin;
    }

    /** `send_next_question` of the quiz and flag sessions, up to its first `await`. */
    method SendNextChoiceQuestion() returns (next: Next)
      requires Valid() && mode != Open
      modifies this
      ensures Valid() && familyStats == old(familyStats) && sourceStats == old(sourceStats)
      ensures (View(), next) == SendNextChoice(old(View()))
    {
      if finished {
        return Idle;
      }
      if asked >= numQuestions || asked >= |prepared| {
        return Finish;
      }
      PresentChoice();
      return Presented;
    }

    /** The part of `send_next_question` that opens the round for the next prepared question. */
    method PresentChoice()
      requires Valid() && mode != Open && !finished && asked < numQuestions && asked < |prepared|
      modifies this
      ensures Valid() && familyStats == old(familyStats) && sourceStats == old(sourceStats)
      ensures View() == SendNextChoice(old(View())).0
    {
      OpenRound();
      RecordChoice();
    }

    /** A fresh question id, with no one having answered and the round open. */
    method OpenRound()
      requires Valid()
      modifies this
      ensures Valid() && familyStats == old(familyStats) && sourceStats == old(sourceStats)
      ensures View() == old(View()).(answered := {}, resolved := false, questionId := old(questionId) + 1)
    {
      answered, resolved, questionId := {}, false, questionId + 1;
    }

    /** The next prepared question becomes the one asked. */
    method RecordChoice()
      requires Valid() && mode != Open && asked < |prepared|
      modifies this
      ensures Valid() && familyStats == old(familyStats) && sourceStats == old(sourceStats)
      ensures View() == old(View()).(asked := old(asked) + 1, correctIndex := Some(old(prepared[asked]).correctIndex),
                                     correctText := Some(old(prepared[asked]).correctText))
    {
      var q := prepared[asked];
      asked, correctIndex, correctText := asked + 1, Some(q.correctIndex), Some(q.correctText);
    }

    /**
     * `send_next_question` of the open session: skip questions that are
     * too long, present the next one or ask for `finish_quiz`. The question
     * id is moved in the same step that reopens the round (see
     * `Rounds.StaleTimerResolvesNewQuestion` for the order as written).
     */
    method SendNextOpenQuestion() returns (next: Next)
      requires Valid() && mode == Open
      modifies this
      ensures Valid() && familyStats == old(familyStats) && sourceStats == old(sourceStats)
      ensures (View(), next) == SendNextOpen(old(View()))
    {
      ghost var start := View();
      while true
        invariant Valid() && questionId == start.questionId && familyStats == old(familyStats) && sourceStats == old(sourceStats)
        invariant OpenScan(View()) == OpenScan(start)
        decreases |questions| - index
      {
        var done;
        done, next := ScanOne();
        if done {
          if next == Presented {
            questionId := questionId + 1;
          }
          return;
        }
      }
    }

    /** One pass of the loop of the open `send_next_question`: stop, skip a question that is too long, or present one. */
    method ScanOne() returns (done: bool, next: Next)
      requires Valid() && mode == Open
      modifies this
      ensures Valid() && familyStats == old(familyStats) && sourceStats == old(sourceStats) && questionId == old(questionId)
      ensures done ==> OpenScan(old(View())) == (View(), next)
      ensures !done ==> OpenScan(old(View())) == OpenScan(View()) && questions == old(questions) && index > old(index)
    {
      ghost var r := View();
      if asked >= numQuestions || index >= |questions| {
        return true, Finish;
      }
      var q := questions[index];
      resolved, correctText, correctEn, index := false, None, None, index + 1;
      assert View() == r.(resolved := false, correctText := None, correctEn := None, index := r.index + 1);
      if |q.question| > MaxQuestionChars * 2 {
        return false, Finish;
      }
      if |q.question| > MaxQuestionChars {
        return false, Finish;
      }
      correctText, correctEn, asked := Some(q.answer), Some(q.answer), asked + 1;
      return true, Presented;
    }

    method SendNextQuestion() returns (next: Next)
      requires Valid()
      modifies this
      ensures Valid() && familyStats == old(familyStats) && sourceStats == old(sourceStats)
      ensures (View(), next) == SendNext(mode, old(View()))
    {
      if mode == Open {
        next := SendNextOpenQuestion();
      } else {
        next := SendNextChoiceQuestion();
      }
    }

    // -------------------------------------------------------------------
    // Resolving a round
    // -------------------------------------------------------------------

    /** `handle_correct_answer` up to its first `await`. `won` tells whether the point was given. */
    method HandleCorrectAnswer(user: UserId) returns (won: bool)
      requires Valid()
      modifies this
      ensures Valid() && familyStats == old(familyStats) && sourceStats == old(sourceStats)
      ensures View() == HandleCorrect(old(View()), user)
      ensures won <==> !old(finished) && !old(resolved)
    {
      if finished || resolved {
        return false;
      }
      AdjustSpec(LedgerView(scores, order, step), user, 1);
      resolved := true;
      scores := Put(scores, user, Lookup(scores, user, 0) + 1);
      step := step + 1;
      order := order[user := step];
      return true;
    }

    /** The last check of the countdown for `qid` and the timeout that follows it. */
    method CountdownExpired(qid: int) returns (timedOut: bool)
      requires Valid()
      modifies this
      ensures Valid() && familyStats == old(familyStats) && sourceStats == old(sourceStats)
      ensures View() == Expire(old(View()), qid)
      ensures timedOut <==> !old(finished) && !old(resolved) && qid == old(questionId)
    {
      if finished || resolved || qid != questionId {
        return false;
      }
      resolved := true;
      return true;
    }

    /** `collect_answers` once `bot.wait_for` returned a message its check accepted. */
    method AnswerReceived(qid: int, user: UserId) returns (won: bool)
      requires Valid()
      modifies this
      ensures Valid() && familyStats == old(familyStats) && sourceStats == old(sourceStats)
      ensures View() == Wake(old(View()), qid, user)
      ensures won <==> !old(finished) && !old(resolved) && qid == old(questionId)
    {
      if finished || resolved || qid != questionId {
        return false;
      }
      won := HandleCorrectAnswer(user);
    }

    /** The button callback, up to its first `await`. */
    method ButtonPressed(user: UserId, button: nat) returns (outcome: Press)
      requires Valid()
      modifies this
      ensures Valid() && familyStats == old(familyStats) && sourceStats == old(sourceStats)
      ensures (View(), outcome) == PressButton(old(View()), user, button)
    {
      if user in answered {
        return AlreadyAnswered;
      }
      answered := answered + {user};
      if finished || resolved {
        return RoundOver;
      }
      if Some(button) == correctIndex {
        return Right;
      }
      return Wrong;
    }

    /**
     * The rest of `on_raw_reaction_add` once the reacted-to message was
     * fetched: a bot's message changes nothing, any other author's score
     * changes by `delta`, whatever happened to the round meanwhile.
     */
    method ApplyReaction(target: UserId, targetIsBot: bool, delta: int)
      requires Valid()
      modifies this
      ensures Valid() && familyStats == old(familyStats) && sourceStats == old(sourceStats)
      ensures View() == if targetIsBot then old(View()) else Reacted(old(View()), target, delta)
    {
      if targetIsBot {
        return;
      }
      AdjustSpec(LedgerView(scores, order, step), target, delta);
      scores := Put(scores, target, Lookup(scores, target, 0) + delta);
      step := step + 1;
      order := order[target := step];
    }

    /** The first statement of `finish_quiz`, and what `resetbot` does to every session. */
    method MarkFinished()
      requires Valid()
      modifies this
      ensures Valid() && familyStats == old(familyStats) && sourceStats == old(sourceStats)
      ensures View() == old(View()).(finished := true)
    {
      finished := true;
    }
  }

  /** Every flag question built for the drawn countries is well formed and offers its answer. */
  lemma FlagQuestionsWellFormed(countries: seq<Country>, chosen: seq<nat>, wrongPicks: seq<seq<nat>>, optionShuffles: seq<seq<nat>>,
                                flagQuestions: seq<ChoiceQuestion>)
    requires 4 <= |countries| && |chosen| == |flagQuestions|
    requires forall j :: 0 <= j < |chosen| ==> chosen[j] < |countries|
    requires forall j :: 0 <= j < |flagQuestions| ==>
      flagQuestions[j] == FlagQuestion(countries, chosen[j], ShuffleFor(wrongPicks, j), ShuffleFor(optionShuffles, j))
    ensures forall q :: q in flagQuestions ==> WellFormed(q) && q.correctText in q.options
  {
    forall q | q in flagQuestions ensures WellFormed(q) && q.correctText in q.options {
      var j :| 0 <= j < |flagQuestions| && flagQuestions[j] == q;
      FlagQuestionSpec(countries, chosen[j], ShuffleFor(wrongPicks, j), ShuffleFor(optionShuffles, j));
    }
  }

  /**
   * What `preload_questions` leaves in a new quiz session of `n` questions:
   * the round as new, holding the first `min(n, kept)` questions prepared
   * from a selection that satisfies `Collected`, with `num_questions`
   * rebound to their count when there are any.
   */
  ghost predicate LoadedQuiz(s: GameSession, n: int, fetchTrivia: nat -> seq<RawQuestion>, fetchOpenTdb: nat -> seq<RawQuestion>,
                             optionShuffles: seq<seq<nat>>, translate: string -> string,
                             raws: seq<Candidate>, phase1: nat, phase2: nat, quiz: seq<QuizQuestion>)
    reads s
  {
    && n >= 1 && s.mode == Quiz
    && Collected(n, fetchTrivia, fetchOpenTdb, raws, phase1, phase2)
    && (var all := Present(Attempts(raws, optionShuffles, translate)); |quiz| == Min(n, |all|) && quiz == all[..|quiz|])
    && s.View() == Initial(n).(prepared := Choices(quiz), numQuestions := if quiz == [] then n else |quiz|)
  }

  /**
   * What the flag session's `preload_questions` leaves in a new session of
   * `n` questions when there are four or more countries: the round as new,
   * holding one flag question for each of the `min(n, countries)` distinct
   * countries drawn, in order.
   */
  ghost predicate LoadedFlags(s: GameSession, n: int, countries: seq<Country>, pick: seq<nat>, wrongPicks: seq<seq<nat>>,
                              optionShuffles: seq<seq<nat>>, chosen: seq<nat>)
    reads s
  {
    && n >= 1 && s.mode == Flags && |countries| >= 4
    && chosen == Sample(pick, |countries|, Min(n, |countries|))
    && IsSample(chosen, |countries|, Min(n, |countries|))
    && |s.prepared| == |chosen|
    && (forall j :: 0 <= j < |chosen| ==>
          s.prepared[j] == FlagQuestion(countries, chosen[j], ShuffleFor(wrongPicks, j), ShuffleFor(optionShuffles, j)))
    && s.View() == Initial(n).(prepared := s.prepared, numQuestions := |chosen|)
  }

  /**
   * What the open session's `preload_questions` leaves in a new session of
   * `n` questions when the bank is not empty: the round as new, holding the
   * bank questions at the first `min(n, bank)` positions of the shuffled
   * index list, which are distinct.
   */
  ghost predicate LoadedOpen(s: GameSession, n: int, bank: seq<TxtQuestion>, perm: seq<nat>, picks: seq<nat>)
    reads s
  {
    && n >= 1 && s.mode == Open && bank != []
    && |picks| == Min(n, |bank|)
    && picks == Permute(Range(|bank|), perm)[..|picks|] && Distinct(picks)
    && |s.questions| == |picks|
    && (forall i :: 0 <= i < |picks| ==> picks[i] < |bank| && s.questions[i] == bank[picks[i]])
    && s.View() == Initial(n).(questions := s.questions, numQuestions := |picks|)
  }

  /** The quiz session `quiz_cmd` creates, once `preload_questions` has run. */
  method NewQuiz(channel: ChannelId, n: int, fetchTrivia: nat -> seq<RawQuestion>, fetchOpenTdb: nat -> seq<RawQuestion>,
                 shuffles: Shuffles, optionShuffles: seq<seq<nat>>, translate: string -> string)
    returns (session: GameSession, ok: bool, ghost raws: seq<Candidate>, ghost phase1: nat, ghost phase2: nat,
             ghost quiz: seq<QuizQuestion>)
    requires n >= 1
    ensures fresh(session) && session.Valid() && session.channel == channel
    ensures LoadedQuiz(session, n, fetchTrivia, fetchOpenTdb, optionShuffles, translate, raws, phase1, phase2, quiz)
    ensures !session.started && (ok <==> session.prepared != []) && (ok <==> quiz != []) && session.numQuestions <= n
  {
    session := new GameSession(Quiz, channel, n);
    ok, quiz, raws, phase1, phase2 := session.PreloadQuiz(fetchTrivia, fetchOpenTdb, shuffles, optionShuffles, translate);
  }

  /** The flag session `flags_cmd` creates, once `preload_questions` has run. */
  method NewFlags(channel: ChannelId, n: int, countries: seq<Country>, pick: seq<nat>, wrongPicks: seq<seq<nat>>,
                  optionShuffles: seq<seq<nat>>)
    returns (session: GameSession, ok: bool, ghost chosen: seq<nat>)
    requires n >= 1
    ensures fresh(session) && session.Valid() && session.channel == channel && session.mode == Flags
    ensures ok <==> |countries| >= 4
    ensures ok ==> LoadedFlags(session, n, countries, pick, wrongPicks, optionShuffles, chosen)
  {
    session := new GameSession(Flags, channel, n);
    ok, chosen := session.PreloadFlags(countries, pick, wrongPicks, optionShuffles);
  }

  /** The open session `question_cmd` creates, once `preload_questions` has run. */
  method NewOpen(channel: ChannelId, n: int, bank: seq<TxtQuestion>, perm: seq<nat>)
    returns (session: GameSession, ok: bool, ghost picks: seq<nat>)
    requires n >= 1
    ensures fresh(session) && session.Valid() && session.channel == channel && session.mode == Open
    ensures ok <==> bank != []
    ensures ok ==> LoadedOpen(session, n, bank, perm, picks)
  {
    session := new GameSession(Open, channel, n);
    ok, picks := session.PreloadOpen(bank, perm);
  }

  /** The questions as they are asked, without where they came from. */
  function Choices(qs: seq<QuizQuestion>): seq<ChoiceQuestion> {
    seq(|qs|, i requires 0 <= i < |qs| => qs[i].choice)
  }

  /**
   * The loading part of `QuizSession.preload_questions`: select the
   * candidates, give up when there are none, and prepare them. `raws` are
   * the selected candidates, `phase1` and `phase2` as in
   * `Selection.Collected`.
   */
  method LoadQuiz(num: int, fetchTrivia: nat -> seq<RawQuestion>, fetchOpenTdb: nat -> seq<RawQuestion>, shuffles: Shuffles,
                  optionShuffles: seq<seq<nat>>, translate: string -> string)
    returns (ok: bool, quiz: seq<QuizQuestion>, n: int, ghost raws: seq<Candidate>, ghost phase1: nat, ghost phase2: nat)
    requires num >= 1
    ensures Collected(num, fetchTrivia, fetchOpenTdb, raws, phase1, phase2)
    ensures var all := Present(Attempts(raws, optionShuffles, translate));
      |quiz| == Min(num, |all|) && quiz == all[..|quiz|]
    ensures ok <==> quiz != []
    ensures ok ==> n == |quiz| <= num
    ensures !ok ==> n == num
    ensures forall q :: q in Choices(quiz) ==> WellFormed(q) && forall o :: o in q.options ==> |o| <= MaxOptionChars
  {
    var selected;
    selected, phase1, phase2 := CollectRawMcQuestions(num, fetchTrivia, fetchOpenTdb, shuffles);
    raws := selected;
    if selected == [] {
      assert Present(Attempts(selected, optionShuffles, translate)) == [];
      return false, [], num, raws, phase1, phase2;
    }
    ok, quiz, n := PrepareQuizQuestions(num, selected, optionShuffles, translate);
    PreparedPrefixFits(selected, optionShuffles, translate, quiz);
  }

  /** Every question of a prefix of the prepared list is well formed and its options fit. */
  lemma PreparedPrefixFits(raws: seq<Candidate>, shuffles: seq<seq<nat>>, translate: string -> string, qs: seq<QuizQuestion>)
    requires var all := Present(Attempts(raws, shuffles, translate)); |qs| <= |all| && qs == all[..|qs|]
    ensures forall q :: q in Choices(qs) ==> WellFormed(q) && forall o :: o in q.options ==> |o| <= MaxOptionChars
  {
    var all := Present(Attempts(raws, shuffles, translate));
    forall q | q in Choices(qs) ensures WellFormed(q) && forall o :: o in q.options ==> |o| <= MaxOptionChars {
      var k :| 0 <= k < |qs| && Choices(qs)[k] == q;
      assert all[k] == qs[k];
      PreparedWellFormed(raws, shuffles, translate, qs[k]);
    }
  }

  // ---------------------------------------------------------------------
  // The registry and the commands
  // ---------------------------------------------------------------------

  const DefaultNumQuestions := 30

  datatype SetupReply = NotAdmin | Busy | BadCount | PreloadFailed | Ready

  /** How `start_cmd` ended: no session to start, a refused start, or the session that now sends its first question. */
  datatype StartReply = NoGame | Refused(why: Start) | Began(session: GameSession)

  /** `num_questions`, with 30 when the command gave none. */
  function Requested(num: Option<int>): int {
    if num.Some? then num.value else DefaultNumQuestions
  }

  /** What `resetbot` leaves of a session it ends. */
  function Ended(r: Round): Round {
    r.(finished := true)
  }

  /** A registry dictionary once `s` has closed: its entry goes, any other session's stays. */
  function Closed(m: map<ChannelId, GameSession>, s: GameSession): map<ChannelId, GameSession> {
    if s.channel in m && m[s.channel] == s then m - {s.channel} else m
  }

  /** How a session of `mode` answers `!start`. */
  function Launched(mode: Mode, r: Round, bank: seq<TxtQuestion>, pick: seq<nat>): (Round, Start)
    requires r.numQuestions >= 1
  {
    if mode == Open then StartOpen(r, bank, pick) else StartChoice(r)
  }

  class Registry {
    var quizzes: map<ChannelId, GameSession>
    var flagGames: map<ChannelId, GameSession>
    var openGames: map<ChannelId, GameSession>

    function Games(mode: Mode): map<ChannelId, GameSession>
      reads this
    {
      match mode
      case Quiz => quizzes
      case Flags => flagGames
      case Open => openGames
    }

    function Sessions(): set<GameSession>
      reads this
    {
      quizzes.Values + flagGames.Values + openGames.Values
    }

    /** A channel holds a session of some mode. */
    predicate Occupied(channel: ChannelId)
      reads this
    {
      channel in quizzes || channel in openGames || channel in flagGames
    }

    /** Each entry is a consistent session of the dictionary's mode, registered under its own channel. */
    static ghost predicate Holds(m: map<ChannelId, GameSession>, mode: Mode)
      reads m.Values
    {
      forall c :: c in m ==> m[c].mode == mode && m[c].channel == c && m[c].Valid()
    }

    ghost predicate Valid()
      reads this, Sessions()
    {
      Holds(quizzes, Quiz) && Holds(flagGames, Flags) && Holds(openGames, Open)
    }

    constructor ()
      ensures Valid() && quizzes == map[] && flagGames == map[] && openGames == map[]
    {
      quizzes, flagGames, openGames := map[], map[], map[];
    }

    /** The session `start_cmd` picks: an unfinished quiz before flags before an open session. */
    ghost function Chosen(channel: ChannelId): Option<GameSession>
      reads this, Sessions()
    {
      if channel in quizzes && !quizzes[channel].finished then Some(quizzes[channel])
      else if channel in flagGames && !flagGames[channel].finished then Some(flagGames[channel])
      else if channel in openGames && !openGames[channel].finished then Some(openGames[channel])
      else None
    }

    /** A loaded session is registered under its channel in its mode's dictionary. */
    method Register(s: GameSession)
      requires Valid() && s.Valid()
      modifies this
      ensures Valid()
      ensures quizzes == if s.mode == Quiz then old(quizzes)[s.channel := s] else old(quizzes)
      ensures flagGames == if s.mode == Flags then old(flagGames)[s.channel := s] else old(flagGames)
      ensures openGames == if s.mode == Open then old(openGames)[s.channel := s] else old(openGames)
    {
      match s.mode {
        case Quiz => quizzes := quizzes[s.channel := s];
        case Flags => flagGames := flagGames[s.channel := s];
        case Open => openGames := openGames[s.channel := s];
      }
    }

    /**
     * `quiz_cmd`: a channel that holds a session of any mode, or a number
     * of questions that is not positive, is refused; otherwise a new quiz
     * is registered and loaded, and dropped again if loading fails.
     */
    method QuizCommand(channel: ChannelId, num: Option<int>, fetchTrivia: nat -> seq<RawQuestion>,
                       fetchOpenTdb: nat -> seq<RawQuestion>, shuffles: Shuffles, optionShuffles: seq<seq<nat>>,
                       translate: string -> string)
      returns (reply: SetupReply, ghost raws: seq<Candidate>, ghost phase1: nat, ghost phase2: nat, ghost quiz: seq<QuizQuestion>)
      requires Valid()
      modifies this
      ensures Valid() && flagGames == old(flagGames) && openGames == old(openGames)
      ensures reply == Busy <==> old(Occupied(channel))
      ensures reply == BadCount <==> !old(Occupied(channel)) && Requested(num) <= 0
      ensures reply in {Busy, BadCount, PreloadFailed, Ready}
      ensures reply != Ready ==> quizzes == old(quizzes)
      ensures reply == Ready ==>
        && channel in quizzes && fresh(quizzes[channel]) && quizzes == old(quizzes)[channel := quizzes[channel]]
        && !quizzes[channel].started && quizzes[channel].prepared != []
        && quizzes[channel].numQuestions <= Requested(num)
        && LoadedQuiz(quizzes[channel], Requested(num), fetchTrivia, fetchOpenTdb, optionShuffles, translate, raws, phase1, phase2, quiz)
      // A request that gets past the two guards loads: the outcome is the load's.
      ensures !old(Occupied(channel)) && Requested(num) > 0 ==>
        && Collected(Requested(num), fetchTrivia, fetchOpenTdb, raws, phase1, phase2)
        && (var all := Present(Attempts(raws, optionShuffles, translate)); |quiz| == Min(Requested(num), |all|) && quiz == all[..|quiz|])
        && (reply == Ready <==> quiz != [])
    {
      raws, phase1, phase2, quiz := [], 0, 0, [];
      if channel in quizzes || channel in openGames || channel in flagGames {
        reply := Busy;
        return;
      }
      var n := Requested(num);
      if n <= 0 {
        reply := BadCount;
        return;
      }
      var session, ok;
      session, ok, raws, phase1, phase2, quiz := NewQuiz(channel, n, fetchTrivia, fetchOpenTdb, shuffles, optionShuffles, translate);
      if !ok {
        reply := PreloadFailed;
        return;
      }
      Register(session);
      reply := Ready;
    }

    /** `flags_cmd`: the refusals of `quiz_cmd`, then a flag session that needs at least four countries. */
    method FlagsCommand(channel: ChannelId, num: Option<int>, countries: seq<Country>, pick: seq<nat>,
                        wrongPicks: seq<seq<nat>>, optionShuffles: seq<seq<nat>>) returns (reply: SetupReply, ghost chosen: seq<nat>)
      requires Valid()
      modifies this
      ensures Valid() && quizzes == old(quizzes) && openGames == old(openGames)
      ensures reply == Busy <==> old(Occupied(channel))
      ensures reply == BadCount <==> !old(Occupied(channel)) && Requested(num) <= 0
      ensures reply == PreloadFailed <==> !old(Occupied(channel)) && Requested(num) > 0 && |countries| < 4
      ensures reply == Ready <==> !old(Occupied(channel)) && Requested(num) > 0 && |countries| >= 4
      ensures reply != Ready ==> flagGames == old(flagGames)
      ensures reply == Ready ==>
        && channel in flagGames && fresh(flagGames[channel]) && flagGames == old(flagGames)[channel := flagGames[channel]]
        && !flagGames[channel].started && flagGames[channel].numQuestions == |flagGames[channel].prepared|
        && flagGames[channel].numQuestions == Min(Requested(num), |countries|)
        && LoadedFlags(flagGames[channel], Requested(num), countries, pick, wrongPicks, optionShuffles, chosen)
    {
      chosen := [];
      if channel in quizzes || channel in openGames || channel in flagGames {
        reply := Busy;
        return;
      }
      var n := Requested(num);
      if n <= 0 {
        reply := BadCount;
        return;
      }
      var session, ok;
      session, ok, chosen := NewFlags(channel, n, countries, pick, wrongPicks, optionShuffles);
      if !ok {
        reply := PreloadFailed;
        return;
      }
      Register(session);
      reply := Ready;
    }

    /** `question_cmd`: for administrators only, then the refusals of `quiz_cmd`, then an open session drawn from the bank. */
    method QuestionCommand(channel: ChannelId, num: Option<int>, isAdmin: bool, bank: seq<TxtQuestion>, perm: seq<nat>)
      returns (reply: SetupReply, ghost picks: seq<nat>)
      requires Valid()
      modifies this
      ensures Valid() && quizzes == old(quizzes) && flagGames == old(flagGames)
      ensures reply == NotAdmin <==> !isAdmin
      ensures reply == Busy <==> isAdmin && old(Occupied(channel))
      ensures reply == BadCount <==> isAdmin && !old(Occupied(channel)) && Requested(num) <= 0
      ensures reply == PreloadFailed <==> isAdmin && !old(Occupied(channel)) && Requested(num) > 0 && bank == []
      ensures reply != Ready ==> openGames == old(openGames)
      ensures reply == Ready ==>
        && channel in openGames && fresh(openGames[channel]) && openGames == old(openGames)[channel := openGames[channel]]
        && !openGames[channel].started
        && |openGames[channel].questions| == openGames[channel].numQuestions == Min(Requested(num), |bank|)
        && LoadedOpen(openGames[channel], Requested(num), bank, perm, picks)
    {
      picks := [];
      if !isAdmin {
        reply := NotAdmin;
        return;
      }
      if channel in quizzes || channel in openGames || channel in flagGames {
        reply := Busy;
        return;
      }
      var n := Requested(num);
      if n <= 0 {
        reply := BadCount;
        return;
      }
      var session, ok;
      session, ok, picks := NewOpen(channel, n, bank, perm);
      if !ok {
        reply := PreloadFailed;
        return;
      }
      Register(session);
      reply := Ready;
    }

    /**
     * `send_next_question` and, when it asks for it, `finish_quiz`: the
     * session is marked finished, its positive scores are added to the
     * lifetime ledger, and its channel's entry in its mode's dictionary is
     * removed.
     */
    method Continue(s: GameSession, ledger: ScoreLedger) returns (next: Next)
      requires Valid() && s.Valid() && ledger.Valid()
      modifies this, s, ledger
      ensures Valid() && s.Valid() && ledger.Valid()
      ensures next == SendNext(s.mode, old(s.View())).1
      ensures next == Finish ==>
        && s.View() == Ended(SendNext(s.mode, old(s.View())).0)
        && ledger.View() == Credit(old(ledger.View()), s.scores)
        && Games(s.mode) == Closed(old(Games(s.mode)), s)
      ensures next != Finish ==> s.View() == SendNext(s.mode, old(s.View())).0 && unchanged(ledger)
      ensures forall m :: m != s.mode || next != Finish ==> Games(m) == old(Games(m))
    {
      next := s.SendNextQuestion();
      if next == Finish {
        FinishQuiz(s, ledger);
      }
    }

    /**
     * `finish_quiz`: the session is marked finished before the final
     * messages are sent, and after them its scores are credited and its
     * registry entry is dropped.
     */
    method FinishQuiz(s: GameSession, ledger: ScoreLedger)
      requires Valid() && s.Valid() && ledger.Valid()
      modifies this, s, ledger
      ensures Valid() && s.Valid() && ledger.Valid()
      ensures s.View() == Ended(old(s.View()))
      ensures ledger.View() == Credit(old(ledger.View()), s.scores)
      ensures Games(s.mode) == Closed(old(Games(s.mode)), s)
      ensures forall m :: m != s.mode ==> Games(m) == old(Games(m))
    {
      s.MarkFinished();
      var changed := ledger.AddMatchScores(s.scores);
      CloseOwnGame(s);
    }

    /**
     * The last statement of `finish_quiz`, as written: the entry under the
     * session's channel is dropped whichever session it holds.
     */
    method CloseGame(s: GameSession)
      requires Valid()
      modifies this
      ensures Valid()
      ensures Games(s.mode) == old(Games(s.mode)) - {s.channel}
      ensures forall m :: m != s.mode ==> Games(m) == old(Games(m))
    {
      match s.mode {
        case Quiz =>
          if s.channel in quizzes {
            quizzes := quizzes - {s.channel};
          }
        case Flags =>
          if s.channel in flagGames {
            flagGames := flagGames - {s.channel};
          }
        case Open =>
          if s.channel in openGames {
            openGames := openGames - {s.channel};
          }
      }
    }

    /** The last statement of `finish_quiz`, dropping the entry only while it still holds this session. */
    method CloseOwnGame(s: GameSession)
      requires Valid()
      modifies this
      ensures Valid()
      ensures Games(s.mode) == Closed(old(Games(s.mode)), s)
      ensures forall m :: m != s.mode ==> Games(m) == old(Games(m))
    {
      match s.mode {
        case Quiz =>
          if s.channel in quizzes && quizzes[s.channel] == s {
            quizzes := quizzes - {s.channel};
          }
        case Flags =>
          if s.channel in flagGames && flagGames[s.channel] == s {
            flagGames := flagGames - {s.channel};
          }
        case Open =>
          if s.channel in openGames && openGames[s.channel] == s {
            openGames := openGames - {s.channel};
          }
      }
    }

    /** The session `start_cmd` looks at: an unfinished quiz before flags before an open session. */
    method Pick(channel: ChannelId) returns (chosen: Option<GameSession>)
      requires Valid()
      ensures chosen == Chosen(channel)
      ensures chosen.Some? ==> chosen.value in Sessions() && chosen.value.Valid() && chosen.value.channel == channel
    {
      chosen := None;
      if channel in quizzes && !quizzes[channel].finished {
        chosen := Some(quizzes[channel]);
      } else if channel in flagGames && !flagGames[channel].finished {
        chosen := Some(flagGames[channel]);
      } else if channel in openGames && !openGames[channel].finished {
        chosen := Some(openGames[channel]);
      }
    }

    /**
     * The start of the session `start_cmd` picked: the checks of the quiz
     * and flag branches, or `QuestionSession.start`, which drops its
     * session when there is nothing to ask.
     */
    method Launch(s: GameSession, bank: seq<TxtQuestion>, pick: seq<nat>) returns (outcome: Start)
      requires Valid() && s in Sessions() && s.Valid()
      modifies this, s
      ensures Valid() && s.Valid()
      ensures (s.View(), outcome) == Launched(s.mode, old(s.View()), bank, pick)
      ensures quizzes == old(quizzes) && flagGames == old(flagGames)
      ensures openGames == if s.mode == Open && outcome == NotPrepared then old(openGames) - {s.channel} else old(openGames)
    {
      if s.mode == Open {
        outcome := LaunchOpen(s, bank, pick);
      } else {
        outcome := s.StartFromCommand();
      }
    }

    /** `QuestionSession.start`, which drops its session when there is nothing to ask. */
    method LaunchOpen(s: GameSession, bank: seq<TxtQuestion>, pick: seq<nat>) returns (outcome: Start)
      requires Valid() && s in Sessions() && s.Valid() && s.mode == Open
      modifies this, s
      ensures Valid() && s.Valid()
      ensures (s.View(), outcome) == StartOpen(old(s.View()), bank, pick)
      ensures quizzes == old(quizzes) && flagGames == old(flagGames)
      ensures openGames == if outcome == NotPrepared then old(openGames) - {s.channel} else old(openGames)
    {
      outcome := s.Start(bank, pick);
      if outcome == NotPrepared && s.channel in openGames {
        openGames := openGames - {s.channel};
      }
    }

    /**
     * `start_cmd` up to its first `await`: the picked session is started.
     * A start that goes ahead names the session; its first question is
     * sent by a later `Continue`, once the start message is out, so other
     * commands may run in between.
     */
    method StartCommand(channel: ChannelId, bank: seq<TxtQuestion>, pick: seq<nat>) returns (reply: StartReply)
      requires Valid()
      modifies this, Sessions()
      ensures Valid()
      ensures reply == NoGame <==> old(Chosen(channel)).None?
      ensures forall t :: t in old(Sessions()) && old(Chosen(channel)) != Some(t) ==> unchanged(t)
      ensures reply == NoGame ==> quizzes == old(quizzes) && flagGames == old(flagGames) && openGames == old(openGames)
      ensures reply != NoGame ==>
        var s := old(Chosen(channel)).value;
        var launched := Launched(s.mode, old(s.View()), bank, pick);
        && s.Valid() && s.View() == launched.0
        && reply == (if launched.1 == Begin then Began(s) else Refused(launched.1))
        && quizzes == old(quizzes) && flagGames == old(flagGames)
        && openGames == if s.mode == Open && launched.1 == NotPrepared then old(openGames) - {channel} else old(openGames)
    {
      var chosen := Pick(channel);
      if chosen.None? {
        return NoGame;
      }
      var s := chosen.value;
      var outcome := Launch(s, bank, pick);
      if outcome != Begin {
        return Refused(outcome);
      }
      return Began(s);
    }

    /**
     * The checks of `on_raw_reaction_add` before it fetches the message:
     * not the bot's own reaction, only an administrator's ✅ or ❌, in a
     * channel with an open session whose round is open. The session found
     * is the one the score change goes to after the fetch.
     */
    method ReactionTarget(channel: ChannelId, reactorIsSelf: bool, reactorIsAdmin: bool, emoji: string)
      returns (hit: Option<GameSession>, delta: int)
      requires Valid()
      ensures hit.Some? <==>
        && !reactorIsSelf && reactorIsAdmin && channel in openGames && ReactionAllowed(openGames[channel].View())
        && (emoji == "✅" || emoji == "❌")
      ensures hit.Some? ==> hit.value == openGames[channel] && hit.value.Valid()
      ensures hit.Some? ==> delta == if emoji == "✅" then 1 else -1
    {
      if reactorIsSelf || !reactorIsAdmin {
        return None, 0;
      }
      if channel !in openGames {
        return None, 0;
      }
      var session := openGames[channel];
      if session.finished || session.resolved {
        return None, 0;
      }
      if emoji == "✅" {
        return Some(session), 1;
      } else if emoji == "❌" {
        return Some(session), -1;
      }
      return None, 0;
    }

    /** `resetbot`: every registered session is marked finished and all three dictionaries are emptied. */
    method ResetBot()
      requires Valid()
      modifies this, Sessions()
      ensures Valid()
      ensures quizzes == map[] && flagGames == map[] && openGames == map[]
      ensures forall s :: s in old(Sessions()) ==> s.View() == Ended(old(s.View()))
    {
      forall s | s in Sessions() {
        s.finished := true;
      }
      quizzes, flagGames, openGames := map[], map[], map[];
    }
  }

  // ---------------------------------------------------------------------
  // Closing a game after `resetbot`, as written and as intended
  // ---------------------------------------------------------------------

  /**
   * A quiz in channel 7 has been marked finished and is sending its final
   * messages when `resetbot` empties the registry and `quiz_cmd`
   * registers a new quiz in the same channel. What is left for the old
   * quiz is to close its entry.
   */
  method ResetWhileFinishing() returns (reg: Registry, older: GameSession, newer: GameSession)
    ensures fresh(reg) && reg.Valid() && reg.quizzes == map[7 := newer] && reg.flagGames == map[] && reg.openGames == map[]
    ensures older.mode == Quiz && older.channel == 7 && older.finished && older != newer
    ensures newer.mode == Quiz && newer.channel == 7 && !newer.finished
  {
    reg := new Registry();
    older := new GameSession(Quiz, 7, 1);
    reg.quizzes := map[7 := older];
    older.MarkFinished();
    reg.ResetBot();
    newer := new GameSession(Quiz, 7, 1);
    reg.quizzes := reg.quizzes[7 := newer];
  }

  /** As written: the old quiz's close drops the entry of the new, unfinished quiz. */
  method ResetDuringFinishDropsNewGame() returns (reg: Registry, newer: GameSession)
    ensures newer.mode == Quiz && newer.channel == 7 && !newer.finished
    ensures 7 !in reg.quizzes
  {
    var older;
    reg, older, newer := ResetWhileFinishing();
    reg.CloseGame(older);
  }

  /** With the close that checks which session the entry holds, the new quiz keeps its entry. */
  method ResetDuringFinishKeepsNewGame() returns (reg: Registry, newer: GameSession)
    ensures newer.mode == Quiz && newer.channel == 7 && !newer.finished
    ensures reg.quizzes == map[7 := newer]
  {
    var older;
    reg, older, newer := ResetWhileFinishing();
    reg.CloseOwnGame(older);
  }

  /** `!start` on a prepared quiz in channel 7, up to the `await` that sends its start message. */
  method StartedQuiz() returns (reg: Registry, s: GameSession)
    ensures fresh(reg) && fresh(s) && reg.Valid() && s.Valid()
    ensures reg.quizzes == map[7 := s] && reg.flagGames == map[] && reg.openGames == map[]
    ensures s.mode == Quiz && s.started && !s.finished && s.asked == 0 && s.prepared != []
  {
    reg := new Registry();
    s := new GameSession(Quiz, 7, 1);
    s.prepared := [ChoiceQuestion("2+2?", ["4", "3", "5", "22"], 0, "4")];
    reg.quizzes := map[7 := s];
    assert reg.Chosen(7) == Some(s);
    var reply := reg.StartCommand(7, [], []);
  }

  /**
   * `resetbot` runs while `!start` sends its start message. The first
   * question's `send_next_question` then returns at its `finished` check:
   * the quiz is left started and finished with no question asked, and
   * nothing more happens to it.
   */
  method ResetBeforeFirstQuestion() returns (reg: Registry, s: GameSession, next: Next)
    ensures s.started && s.finished && s.asked == 0 && next == Idle
    ensures reg.quizzes == map[] && reg.flagGames == map[] && reg.openGames == map[]
  {
    reg, s := StartedQuiz();
    OneSession(reg.quizzes, 7, s);
    assert reg.Sessions() == {s};
    ghost var r := s.View();
    reg.ResetBot();
    assert s.View() == Ended(r);
    next := s.SendNextQuestion();
  }

  lemma OneSession(m: map<ChannelId, GameSession>, c: ChannelId, s: GameSession)
    requires m == map[c := s]
    ensures m.Values == {s}
  {
    assert m[c] == s;
  }

  /**
   * `!quiz` with any count in an empty registry, then `!start` in the same channel: a quiz
   * that loaded is the session `!start` picks, and it starts with nothing
   * asked yet.
   */
  method QuizThenStart(num: Option<int>, fetchTrivia: nat -> seq<RawQuestion>, fetchOpenTdb: nat -> seq<RawQuestion>,
                       shuffles: Shuffles, optionShuffles: seq<seq<nat>>, translate: string -> string)
    returns (setup: SetupReply, start: StartReply)
    ensures setup == Ready <==> start.Began?
    ensures start.Began? ==> start.session.started && !start.session.finished && start.session.asked == 0
  {
    var reg;
    reg, setup := QuizInEmptyRegistry(num, fetchTrivia, fetchOpenTdb, shuffles, optionShuffles, translate);
    if setup != Ready {
      return setup, NoGame;
    }
    assert reg.Chosen(7) == Some(reg.quizzes[7]);
    start := reg.StartCommand(7, [], []);
  }

  /** The `!quiz` half of `QuizThenStart`: what a quiz set up in channel 7 of an empty registry leaves behind. */
  method QuizInEmptyRegistry(num: Option<int>, fetchTrivia: nat -> seq<RawQuestion>, fetchOpenTdb: nat -> seq<RawQuestion>,
                             shuffles: Shuffles, optionShuffles: seq<seq<nat>>, translate: string -> string)
    returns (reg: Registry, setup: SetupReply)
    ensures fresh(reg) && reg.Valid() && reg.flagGames == map[] && reg.openGames == map[]
    ensures setup != Ready ==> reg.quizzes == map[]
    ensures setup == Ready ==>
      && 7 in reg.quizzes && fresh(reg.quizzes[7]) && reg.quizzes == map[7 := reg.quizzes[7]]
      && !reg.quizzes[7].started && !reg.quizzes[7].finished && reg.quizzes[7].asked == 0 && reg.quizzes[7].prepared != []
  {
    reg := new Registry();
    ghost var raws, phase1, phase2, quiz;
    setup, raws, phase1, phase2, quiz := reg.QuizCommand(7, num, fetchTrivia, fetchOpenTdb, shuffles, optionShuffles, translate);
  }
}
