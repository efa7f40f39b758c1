/**
 * The rounds of one game session, as functions from the session's state
 * to its next state. Every function is one stretch of a session method
 * that runs without an `await`, so nothing else can interleave with it;
 * the countdown task, the answer listener, a button press and the next
 * `send_next_question` are separate steps. The classes in `Games` are
 * proved to change their fields exactly as these functions say.
 */
module Rounds {
  import opened Common
  import opened Formats
  import opened Matching
  import opened Preparation
  import opened Scores

  /** `QuizSession`, `FlagSession` and `QuestionSession`. */
  datatype Mode = Quiz | Flags | Open

  /**
   * The fields of a session that its rounds read and write. `prepared`
   * holds the choice questions (quiz and flag modes), `questions` the open
   * questions; `index` is `current_index` of open mode; `board` holds the
   * session's `scores`, `score_order_map` and `score_step_counter`.
   */
  datatype Round = Round(
    finished: bool,
    resolved: bool,
    started: bool,
    numQuestions: int,
    prepared: seq<ChoiceQuestion>,
    questions: seq<TxtQuestion>,
    asked: nat,
    index: nat,
    questionId: int,
    correctIndex: Option<nat>,
    correctText: Option<string>,
    correctEn: Option<string>,
    answered: set<UserId>,
    board: LedgerView)

  /** A session as its constructor leaves it. */
  function Initial(num: int): Round {
    Round(false, false, false, num, [], [], 0, 0, 0, None, None, None, {}, LedgerView([], map[], 0))
  }

  /** What the session's fields always satisfy: a consistent score board and counters within the question list. */
  ghost predicate Consistent(mode: Mode, r: Round) {
    && LedgerOk(r.board)
    && (mode != Open ==> r.asked <= |r.prepared|)
    && (mode == Open ==> r.asked <= r.index <= |r.questions|)
  }

  lemma InitialConsistent(mode: Mode, num: int)
    ensures Consistent(mode, Initial(num))
  {
  }

  // ---------------------------------------------------------------------
  // Presenting the next question
  // ---------------------------------------------------------------------

  /** How `send_next_question` ended: it did nothing, it asked for `finish_quiz`, or it presented a question. */
  datatype Next = Idle | Finish | Presented

  /** `send_next_question` of the quiz and flag sessions. */
  function SendNextChoice(r: Round): (Round, Next) {
    if r.finished then (r, Idle)
    else if r.asked >= r.numQuestions || r.asked >= |r.prepared| then (r, Finish)
    else
      var q := r.prepared[r.asked];
      (r.(answered := {}, resolved := false, questionId := r.questionId + 1, asked := r.asked + 1,
          correctIndex := Some(q.correctIndex), correctText := Some(q.correctText)), Presented)
  }

  /**
   * A finished session presents nothing; an unfinished one finishes once
   * it has asked `num_questions` questions or run out of prepared ones.
   * Otherwise it presents the next prepared question in order, under a
   * fresh question id, with the round open and no one having answered;
   * the scores are left alone.
   */
  lemma SendNextChoiceSpec(r: Round)
    ensures var (r', next) := SendNextChoice(r);
      && (next == Idle <==> r.finished)
      && (next == Finish <==> !r.finished && (r.asked >= r.numQuestions || r.asked >= |r.prepared|))
      && (next != Presented ==> r' == r)
      && (next == Presented ==>
            && r.asked < |r.prepared| && r'.asked == r.asked + 1
            && r'.questionId == r.questionId + 1
            && !r'.resolved && r'.answered == {}
            && r'.correctIndex == Some(r.prepared[r.asked].correctIndex)
            && r'.correctText == Some(r.prepared[r.asked].correctText)
            && r'.board == r.board && r'.finished == r.finished
            && r'.prepared == r.prepared)
  {
  }

  /**
   * The part of the open-mode `send_next_question` before its first
   * `await`: it skips questions longer than 80 characters without counting
   * them, and when it finds one it records its answer and counts it.
   */
  function OpenScan(r: Round): (Round, Next)
    decreases |r.questions| - r.index
  {
    if r.asked >= r.numQuestions || r.index >= |r.questions| then (r, Finish)
    else
      var q := r.questions[r.index];
      var r1 := r.(resolved := false, correctText := None, correctEn := None, index := r.index + 1);
      if |q.question| > MaxQuestionChars * 2 then OpenScan(r1)
      else if |q.question| > MaxQuestionChars then OpenScan(r1)
      else (r1.(correctText := Some(q.answer), correctEn := Some(q.answer), asked := r.asked + 1), Presented)
  }

  /** The open question was presented as written: the question id moves only after the message is sent. */
  function AfterSend(r: Round): Round {
    r.(questionId := r.questionId + 1)
  }

  /**
   * The open-mode `send_next_question` with the question id moved in the
   * same step that reopens the round, as the quiz and flag sessions do.
   */
  function SendNextOpen(r: Round): (Round, Next) {
    var (r1, next) := OpenScan(r);
    if next == Presented then (AfterSend(r1), next) else (r1, next)
  }

  /** `send_next_question` of the session's mode (open mode with the id moved as intended; see below). */
  function SendNext(mode: Mode, r: Round): (Round, Next) {
    if mode == Open then SendNextOpen(r) else SendNextChoice(r)
  }

  /** Every question strictly between positions `from` and `to` is too long to ask. */
  predicate TooLongBetween(qs: seq<TxtQuestion>, from: nat, to: nat)
    requires from <= to <= |qs|
  {
    forall k :: from <= k < to ==> |qs[k].question| > MaxQuestionChars
  }

  /**
   * The scan either presents the first question from `index` on that has
   * at most 80 characters, having skipped every one before it, or, when
   * `num_questions` have been asked or the list runs out, asks for
   * `finish_quiz`. It never touches the question id, the scores, the
   * answered set or `finished`.
   */
  lemma {:induction false} OpenScanSpec(r: Round)
    requires r.index <= |r.questions|
    ensures var (r', next) := OpenScan(r);
      && next != Idle
      && r.index <= r'.index <= |r'.questions|
      && r'.questions == r.questions && r'.questionId == r.questionId && r'.board == r.board
      && r'.answered == r.answered && r'.finished == r.finished && r'.numQuestions == r.numQuestions
      && (next == Presented ==>
            && r.asked < r.numQuestions && r.index < r'.index
            && TooLongBetween(r.questions, r.index, r'.index - 1)
            && |r.questions[r'.index - 1].question| <= MaxQuestionChars
            && r'.correctText == Some(r.questions[r'.index - 1].answer)
            && !r'.resolved && r'.asked == r.asked + 1)
      && (next == Finish ==>
            && r'.asked == r.asked
            && (r.asked >= r.numQuestions || (r'.index == |r.questions| && TooLongBetween(r.questions, r.index, r'.index))))
    decreases |r.questions| - r.index
  {
    if r.asked >= r.numQuestions || r.index >= |r.questions| {
    } else {
      var q := r.questions[r.index];
      var r1 := r.(resolved := false, correctText := None, correctEn := None, index := r.index + 1);
      if |q.question| > MaxQuestionChars {
        OpenScanSpec(r1);
      }
    }
  }

  /** Sending the next open question either presents one, and then under a fresh question id, or finishes. */
  lemma SendNextOpenSpec(r: Round)
    requires r.index <= |r.questions|
    ensures var (r', next) := SendNextOpen(r);
      && next != Idle
      && (next == Presented ==> r'.questionId == r.questionId + 1 && !r'.resolved && r'.asked == r.asked + 1)
      && (next == Finish ==> r'.questionId == r.questionId && r'.asked == r.asked)
      && r'.board == r.board && r'.finished == r.finished
  {
    OpenScanSpec(r);
  }

  // ---------------------------------------------------------------------
  // Resolving a round
  // ---------------------------------------------------------------------

  /** `handle_correct_answer`: the first correct answer of an open round wins one point. */
  function HandleCorrect(r: Round, user: UserId): Round {
    if r.finished || r.resolved then r
    else r.(resolved := true, board := Adjust(r.board, user, 1))
  }

  /** The last check of the countdown task started for `qid`, then the timeout (`handle_timeout` in open mode). */
  function Expire(r: Round, qid: int): Round {
    if r.finished || r.resolved || qid != r.questionId then r
    else r.(resolved := true)
  }

  /**
   * The check `collect_answers` gives `bot.wait_for`: a message counts when
   * its author is not a bot, it was sent in the session's own channel, the
   * round it was started for is still open and the text matches the stored
   * answer.
   */
  predicate ListenerAccepts(r: Round, channel: ChannelId, qid: int, authorIsBot: bool, from: ChannelId, text: string,
                            nfkc: string -> string, fold: char -> string) {
    var fa := if r.correctText.Some? then r.correctText.value else "";
    var en := if r.correctEn.Some? then r.correctEn.value else "";
    && !authorIsBot && from == channel
    && !r.finished && !r.resolved && qid == r.questionId && IsCorrectAnswer(text, fa, en, nfkc, fold)
  }

  /** `collect_answers` after `bot.wait_for` returned an accepted message from `user`. */
  function Wake(r: Round, qid: int, user: UserId): Round {
    if r.finished || r.resolved || qid != r.questionId then r
    else HandleCorrect(r, user)
  }

  /** What a button press leads to. */
  datatype Press = AlreadyAnswered | RoundOver | Right | Wrong

  /**
   * The button callback of `AnswerView`, up to its first `await`. A press
   * marked `Right` then runs `handle_correct_answer`.
   */
  function PressButton(r: Round, user: UserId, index: nat): (Round, Press) {
    if user in r.answered then (r, AlreadyAnswered)
    else
      var r1 := r.(answered := r.answered + {user});
      if r1.finished || r1.resolved then (r1, RoundOver)
      else if Some(index) == r1.correctIndex then (r1, Right)
      else (r1, Wrong)
  }

  /**
   * `on_raw_reaction_add` looks at the round before it fetches the
   * reacted-to message: an administrator's reaction counts only while the
   * round is open.
   */
  predicate ReactionAllowed(r: Round) {
    !r.finished && !r.resolved
  }

  /**
   * After the message is fetched, the ✅ (`delta` 1) or ❌ (`delta` -1)
   * is applied to the author's score without looking at the round again.
   */
  function Reacted(r: Round, target: UserId, delta: int): Round {
    r.(board := Adjust(r.board, target, delta))
  }

  /**
   * A correct answer on an open round resolves it and gives the winner
   * exactly one point and the newest stamp; no one else's score moves. On
   * a finished or resolved round it changes nothing.
   */
  lemma HandleCorrectSpec(r: Round, user: UserId)
    requires LedgerOk(r.board)
    ensures var r' := HandleCorrect(r, user);
      && (r.finished || r.resolved ==> r' == r)
      && (!r.finished && !r.resolved ==>
            && r'.resolved
            && Total(r'.board, user) == Total(r.board, user) + 1
            && (forall w :: w != user ==> Total(r'.board, w) == Total(r.board, w))
            && (forall w :: w in r.board.order && w != user ==> r'.board.order[w] < r'.board.order[user])
            && r'.board.step == r.board.step + 1
            && r' == r.(resolved := true, board := r'.board))
      && LedgerOk(r'.board)
  {
    AdjustSpec(r.board, user, 1);
  }

  /**
   * A countdown resolves the round only when it belongs to the current
   * question and the round is still open, and it never changes a score.
   */
  lemma ExpireSpec(r: Round, qid: int)
    ensures Expire(r, qid).board == r.board
    ensures Expire(r, qid).resolved
      <==> r.resolved || (!r.finished && qid == r.questionId)
    ensures Expire(r, qid) == r || Expire(r, qid) == r.(resolved := true)
  {
  }

  /** A press is refused for a user who already pressed; any other press marks the user, and only the right index on an open round is `Right`. */
  lemma PressButtonSpec(r: Round, user: UserId, index: nat)
    ensures var (r', p) := PressButton(r, user, index);
      && (p == AlreadyAnswered <==> user in r.answered)
      && (p == AlreadyAnswered ==> r' == r)
      && (p != AlreadyAnswered ==> r' == r.(answered := r.answered + {user}))
      && (p == Right <==> user !in r.answered && !r.finished && !r.resolved && r.correctIndex == Some(index))
  {
  }

  // ---------------------------------------------------------------------
  // Many steps within one round
  // ---------------------------------------------------------------------

  /** Everything that can happen to a round between two presented questions. */
  datatype Event =
    | Correct(user: UserId)
    | Timeout(qid: int)
    | Answer(qid: int, user: UserId)
    | Click(user: UserId, button: nat)
    | Reaction(target: UserId, delta: int)

  function Apply(r: Round, e: Event): Round {
    match e
    case Correct(u) => HandleCorrect(r, u)
    case Timeout(q) => Expire(r, q)
    case Answer(q, u) => Wake(r, q, u)
    case Click(u, b) => PressButton(r, u, b).0
    case Reaction(t, d) => Reacted(r, t, d)
  }

  function Run(r: Round, es: seq<Event>): Round {
    if es == [] then r else Apply(Run(r, es[..|es| - 1]), es[|es| - 1])
  }

  /** How many of the events closed the round. */
  function Resolutions(r: Round, es: seq<Event>): nat {
    if es == [] then 0
    else
      var before := Run(r, es[..|es| - 1]);
      Resolutions(r, es[..|es| - 1]) + (if !before.resolved && Apply(before, es[|es| - 1]).resolved then 1 else 0)
  }

  /** No event of a round reopens it, moves the question id or changes the question counters. */
  lemma ApplyKeeps(r: Round, e: Event)
    ensures var r' := Apply(r, e);
      && (r.resolved ==> r'.resolved)
      && r'.questionId == r.questionId && r'.asked == r.asked && r'.index == r.index
      && r'.finished == r.finished && r'.correctIndex == r.correctIndex && r'.correctText == r.correctText
      && (r.resolved && !e.Reaction? ==> r'.board == r.board)
  {
  }

  lemma {:induction false} RunKeeps(r: Round, es: seq<Event>)
    ensures var r' := Run(r, es);
      && (r.resolved ==> r'.resolved)
      && r'.questionId == r.questionId && r'.asked == r.asked && r'.index == r.index
      && r'.finished == r.finished && r'.correctIndex == r.correctIndex && r'.correctText == r.correctText
  {
    if es != [] {
      RunKeeps(r, es[..|es| - 1]);
      ApplyKeeps(Run(r, es[..|es| - 1]), es[|es| - 1]);
    }
  }

  /**
   * Once a round is closed, only an administrator's reaction that was
   * let through before can still change a score.
   */
  lemma {:induction false} ResolvedFreezesScores(r: Round, es: seq<Event>)
    requires r.resolved
    requires forall i :: 0 <= i < |es| ==> !es[i].Reaction?
    ensures Run(r, es).board == r.board
  {
    if es != [] {
      ResolvedFreezesScores(r, es[..|es| - 1]);
      RunKeeps(r, es[..|es| - 1]);
      ApplyKeeps(Run(r, es[..|es| - 1]), es[|es| - 1]);
    }
  }

  /** A round is closed at most once: exactly one event closes it if it starts open and ends closed, none otherwise. */
  lemma {:induction false} ResolvedOnce(r: Round, es: seq<Event>)
    ensures Resolutions(r, es) == if !r.resolved && Run(r, es).resolved then 1 else 0
  {
    if es != [] {
      var init := es[..|es| - 1];
      ResolvedOnce(r, init);
      RunKeeps(r, init);
      ApplyKeeps(Run(r, init), es[|es| - 1]);
    }
  }

  /** A countdown or an answer listener left over from an earlier question changes nothing. */
  predicate Stale(e: Event, qid: int) {
    (e.Timeout? && e.qid != qid) || (e.Answer? && e.qid != qid)
  }

  lemma {:induction false} StaleEventsIgnored(r: Round, es: seq<Event>)
    requires forall i :: 0 <= i < |es| ==> Stale(es[i], r.questionId)
    ensures Run(r, es) == r
  {
    if es != [] {
      StaleEventsIgnored(r, es[..|es| - 1]);
    }
  }

  /** Every step keeps the session's fields consistent. */
  lemma ApplyConsistent(mode: Mode, r: Round, e: Event)
    requires Consistent(mode, r)
    ensures Consistent(mode, Apply(r, e))
  {
    match e
    case Correct(u) => AdjustSpec(r.board, u, 1);
    case Answer(q, u) => AdjustSpec(r.board, u, 1);
    case Reaction(t, d) => AdjustSpec(r.board, t, d);
    case Timeout(_) =>
    case Click(_, _) =>
  }

  lemma SendNextConsistent(mode: Mode, r: Round)
    requires Consistent(mode, r)
    ensures Consistent(mode, SendNext(mode, r).0)
  {
    if mode == Open {
      OpenScanSpec(r);
    }
  }

  // ---------------------------------------------------------------------
  // Starting and finishing
  // ---------------------------------------------------------------------

  datatype Start = AlreadyStarted | NotPrepared | Begin

  /** `start_cmd` for a quiz or flag session that is not finished. */
  function StartChoice(r: Round): (Round, Start) {
    if r.started then (r, AlreadyStarted)
    else if r.prepared == [] then (r, NotPrepared)
    else (r.(started := true), Begin)
  }

  /**
   * `QuestionSession.start`. A second call is refused. When no questions
   * were loaded it draws `min(num_questions, len(bank))` of the bank with
   * `pick`, or reports `NotPrepared` (and the session is dropped) when the
   * bank is empty too.
   */
  function StartOpen(r: Round, bank: seq<TxtQuestion>, pick: seq<nat>): (Round, Start)
    requires r.numQuestions >= 1
  {
    if r.started then (r, AlreadyStarted)
    else
      var r1 := r.(started := true);
      if r1.questions != [] then (r1, Begin)
      else if bank == [] then (r1, NotPrepared)
      else
        var n := Min(r.numQuestions, |bank|);
        var drawn := Sample(pick, |bank|, n);
        (r1.(numQuestions := n, questions := seq(n, i requires 0 <= i < n => bank[drawn[i]])), Begin)
  }

  /** Starting is refused when already started, and a successful start leaves a question to ask. */
  lemma StartSpec(r: Round, bank: seq<TxtQuestion>, pick: seq<nat>)
    requires r.numQuestions >= 1
    ensures StartChoice(r).1 == AlreadyStarted <==> r.started
    ensures StartChoice(r).1 == Begin ==> StartChoice(r).0 == r.(started := true) && StartChoice(r).0.prepared != []
    ensures StartOpen(r, bank, pick).1 == AlreadyStarted <==> r.started
    ensures StartOpen(r, bank, pick).1 == AlreadyStarted ==> StartOpen(r, bank, pick).0 == r
    ensures StartOpen(r, bank, pick).1 != AlreadyStarted ==> StartOpen(r, bank, pick).0.started
    ensures StartOpen(r, bank, pick).1 == Begin ==> StartOpen(r, bank, pick).0.questions != []
    ensures StartOpen(r, bank, pick).1 == NotPrepared <==> !r.started && r.questions == [] && bank == []
  {
  }

  // ---------------------------------------------------------------------
  // The open-mode question id, as written and as intended
  // ---------------------------------------------------------------------

  /**
   * As written, the open session reopens the round and records the new
   * answer before it sends the question, but moves the question id only
   * after the send. A countdown started for the previous question that
   * reaches its last check during the send finds an open round under its
   * own id and times out the question just presented.
   */
  lemma StaleTimerResolvesNewQuestion()
    ensures var q0 := TxtQuestion("2+2?", "4", "", "");
      var q1 := TxtQuestion("Capital of Iran?", "Tehran", "", "");
      var r := Initial(2).(started := true, questions := [q0, q1], asked := 1, index := 1, questionId := 1,
                           resolved := true, correctText := Some("4"), correctEn := Some("4"));
      var (during, next) := OpenScan(r);
      && next == Presented
      && during.correctText == Some("Tehran")
      && !during.resolved
      && Expire(during, r.questionId).resolved
      && Expire(AfterSend(during), r.questionId) == AfterSend(during)
  {
  }

  /**
   * With the id moved in the same step, no countdown or listener started
   * for an earlier question can act on the new one.
   */
  lemma FreshIdFencesOldTasks(mode: Mode, r: Round, qid: int, user: UserId)
    requires qid <= r.questionId
    ensures var r' := SendNext(mode, r);
      r'.1 == Presented ==>
        && Expire(r'.0, qid) == r'.0
        && Wake(r'.0, qid, user) == r'.0
        && forall channel, authorIsBot, from, text, nfkc, fold :: !ListenerAccepts(r'.0, channel, qid, authorIsBot, from, text, nfkc, fold)
  {
    if mode == Open && r.index <= |r.questions| {
      OpenScanSpec(r);
    }
  }
}
