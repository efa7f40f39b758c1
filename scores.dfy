/**
 * Lifetime scores and rankings.
 *
 * The lifetime ledger holds every player's total, the step at which the
 * player's total last changed ("order stamp") and a step counter. At the
 * end of a game every positive game score is added to the ledger and
 * re-stamps its player; an administrator's `!point` adds any signed
 * amount and always re-stamps. Rankings list players by score, highest
 * first, and among equal scores the one stamped earlier first; a player
 * never stamped sorts as if stamped at 10**9.
 */
module Scores {
  import opened Common

  /** A `Dict[int, int]` of scores, in insertion order. */
  type Board = seq<(UserId, int)>

  /** The sort key's stand-in for a player who has no stamp. */
  const Unstamped: int := 1_000_000_000

  datatype LedgerView = LedgerView(totals: Board, order: map<UserId, int>, step: int)

  /** Totals are a dictionary, and every stamp was handed out by the counter, each to one player. */
  ghost predicate LedgerOk(v: LedgerView) {
    && DistinctKeys(v.totals)
    && v.step >= 0
    && (forall u :: u in v.order ==> 1 <= v.order[u] <= v.step)
    && (forall u, w :: u in v.order && w in v.order && u != w ==> v.order[u] != v.order[w])
  }

  /** `global_scores.get(u, 0)` */
  function Total(v: LedgerView, u: UserId): int {
    Lookup(v.totals, u, 0)
  }

  // ---------------------------------------------------------------------
  // State changes, as functions of the ledger
  // ---------------------------------------------------------------------

  /** Add `amount` to `u`'s total and stamp `u` with a fresh step. */
  function Adjust(v: LedgerView, u: UserId, amount: int): LedgerView {
    LedgerView(Put(v.totals, u, Lookup(v.totals, u, 0) + amount), v.order[u := v.step + 1], v.step + 1)
  }

  /** One entry of `add_match_scores_to_global`'s loop: a score that is not positive is skipped. */
  function CreditOne(v: LedgerView, u: UserId, score: int): LedgerView {
    if score <= 0 then v else Adjust(v, u, score)
  }

  /** The whole loop over the game scores, in dictionary order. */
  function Credit(v: LedgerView, game: Board): LedgerView {
    if game == [] then v
    else
      var last := game[|game| - 1];
      CreditOne(Credit(v, game[..|game| - 1]), last.0, last.1)
  }

  function CountPositive(game: Board): nat {
    if game == [] then 0
    else CountPositive(game[..|game| - 1]) + (if game[|game| - 1].1 > 0 then 1 else 0)
  }

  // ---------------------------------------------------------------------
  // What the changes promise
  // ---------------------------------------------------------------------

  /** `!point`: exactly `amount` is added, nobody else's total moves, and the stamp is newer than every other. */
  lemma AdjustSpec(v: LedgerView, u: UserId, amount: int)
    requires LedgerOk(v)
    ensures LedgerOk(Adjust(v, u, amount))
    ensures Total(Adjust(v, u, amount), u) == Total(v, u) + amount
    ensures forall w :: w != u ==> Total(Adjust(v, u, amount), w) == Total(v, w)
    ensures forall w :: w in v.order && w != u ==> Adjust(v, u, amount).order[w] < Adjust(v, u, amount).order[u]
    ensures Adjust(v, u, amount).step == v.step + 1
  {
    PutSpec(v.totals, u, Lookup(v.totals, u, 0) + amount);
  }

  /** The ledger stays well formed and the step counter moves once per positive score. */
  lemma {:induction false} CreditKeepsLedger(v: LedgerView, game: Board)
    requires LedgerOk(v)
    ensures LedgerOk(Credit(v, game))
    ensures Credit(v, game).step == v.step + CountPositive(game)
    ensures forall u :: u in v.order ==> u in Credit(v, game).order
  {
    if game != [] {
      var init := game[..|game| - 1];
      var last := game[|game| - 1];
      CreditKeepsLedger(v, init);
      if last.1 > 0 {
        AdjustSpec(Credit(v, init), last.0, last.1);
      }
    }
  }

  /** Lifetime totals never go down at the end of a game. */
  lemma {:induction false} CreditNeverLowers(v: LedgerView, game: Board, u: UserId)
    requires LedgerOk(v)
    ensures Total(Credit(v, game), u) >= Total(v, u)
  {
    if game != [] {
      var init := game[..|game| - 1];
      var last := game[|game| - 1];
      CreditNeverLowers(v, init, u);
      CreditKeepsLedger(v, init);
      if last.1 > 0 {
        AdjustSpec(Credit(v, init), last.0, last.1);
      }
    }
  }

  /**
   * Each player's total grows by exactly the player's game score when
   * it is positive and not at all otherwise.
   */
  lemma {:induction false} CreditExact(v: LedgerView, game: Board, u: UserId)
    requires LedgerOk(v) && DistinctKeys(game)
    ensures Total(Credit(v, game), u) == Total(v, u) + (if Lookup(game, u, 0) > 0 then Lookup(game, u, 0) else 0)
  {
    if game != [] {
      var init := game[..|game| - 1];
      var last := game[|game| - 1];
      LastEntry(game, u, 0);
      CreditExact(v, init, u);
      CreditKeepsLedger(v, init);
      if last.1 > 0 {
        AdjustSpec(Credit(v, init), last.0, last.1);
      }
    }
  }

  /**
   * A player with a positive game score ends with a stamp newer than
   * every stamp the ledger had; any other player keeps the stamp (or the
   * lack of one) they had.
   */
  lemma {:induction false} CreditStamps(v: LedgerView, game: Board, u: UserId)
    requires LedgerOk(v) && DistinctKeys(game)
    ensures Lookup(game, u, 0) > 0 ==> u in Credit(v, game).order && Credit(v, game).order[u] > v.step
    ensures Lookup(game, u, 0) <= 0 ==>
      (u in Credit(v, game).order <==> u in v.order) &&
      (u in v.order ==> Credit(v, game).order[u] == v.order[u])
  {
    if game != [] {
      var init := game[..|game| - 1];
      LastEntry(game, u, 0);
      CreditStamps(v, init, u);
      CreditKeepsLedger(v, init);
    }
  }

  // ---------------------------------------------------------------------
  // The ledger as the program keeps it
  // ---------------------------------------------------------------------

  class ScoreLedger {
    var totals: Board
    var order: map<UserId, int>
    var step: int

    function View(): LedgerView
      reads this
    {
      LedgerView(totals, order, step)
    }

    ghost predicate Valid()
      reads this
    {
      LedgerOk(View())
    }

    /** What the program starts with: the saved totals, no stamps, the counter at zero. */
    constructor (saved: Board)
      requires DistinctKeys(saved)
      ensures Valid() && View() == LedgerView(saved, map[], 0)
    {
      totals, order, step := saved, map[], 0;
    }

    /**
     * `add_match_scores_to_global`. `changed` tells whether the ledger is
     * saved afterwards: some game score was positive.
     */
    method AddMatchScores(game: Board) returns (changed: bool)
      requires Valid()
      modifies this
      ensures Valid()
      ensures View() == Credit(old(View()), game)
      ensures changed <==> exists i :: 0 <= i < |game| && game[i].1 > 0
    {
      ghost var start := View();
      changed := false;
      var i := 0;
      while i < |game|
        invariant 0 <= i <= |game|
        invariant View() == Credit(start, game[..i])
        invariant LedgerOk(View())
        invariant changed <==> exists k :: 0 <= k < i && game[k].1 > 0
      {
        assert game[..i + 1][..i] == game[..i];
        var (user, score) := game[i];
        CreditEntry(user, score);
        changed := changed || score > 0;
        i := i + 1;
      }
      assert game[..i] == game;
    }

    /** One pass of `add_match_scores_to_global`'s loop. */
    method CreditEntry(user: UserId, score: int)
      requires Valid()
      modifies this
      ensures Valid()
      ensures View() == CreditOne(old(View()), user, score)
    {
      if score > 0 {
        AdjustSpec(View(), user, score);
        totals := Put(totals, user, Lookup(totals, user, 0) + score);
        step := step + 1;
        order := order[user := step];
      }
    }

    /** `!point`: administrators only; any signed amount, always a fresh stamp. */
    method Point(isAdmin: bool, user: UserId, amount: int)
      requires Valid()
      modifies this
      ensures Valid()
      ensures View() == if isAdmin then Adjust(old(View()), user, amount) else old(View())
    {
      if !isAdmin {
        return;
      }
      AdjustSpec(View(), user, amount);
      totals := Put(totals, user, Lookup(totals, user, 0) + amount);
      step := step + 1;
      order := order[user := step];
    }
  }

  // ---------------------------------------------------------------------
  // Rankings
  // ---------------------------------------------------------------------

  /** `order_map.get(user_id, 10**9)` */
  function OrderValue(order: map<UserId, int>, u: UserId): int {
    if u in order then order[u] else Unstamped
  }

  /** `sort_key(a) <= sort_key(b)` for the key `(-score, order_value)`. */
  predicate RanksNoLower(order: map<UserId, int>, a: (UserId, int), b: (UserId, int)) {
    -a.1 < -b.1 || (a.1 == b.1 && OrderValue(order, a.0) <= OrderValue(order, b.0))
  }

  predicate Ranked(order: map<UserId, int>, s: Board) {
    forall i, j :: 0 <= i < j < |s| ==> RanksNoLower(order, s[i], s[j])
  }

  /** Put `x` in front of the first entry it does not rank below. */
  function Insert(order: map<UserId, int>, x: (UserId, int), s: Board): (r: Board)
    ensures |r| == |s| + 1
    ensures forall y :: y in r ==> y in s || y == x
  {
    if s == [] then [x]
    else if RanksNoLower(order, x, s[0]) then [x] + s
    else
      assert s == [s[0]] + s[1..];
      [s[0]] + Insert(order, x, s[1..])
  }

  lemma {:induction false} InsertRanked(order: map<UserId, int>, x: (UserId, int), s: Board)
    requires Ranked(order, s)
    ensures Ranked(order, Insert(order, x, s))
  {
    if s != [] && !RanksNoLower(order, x, s[0]) {
      var t := Insert(order, x, s[1..]);
      InsertRanked(order, x, s[1..]);
      var r := [s[0]] + t;
      forall j | 0 <= j < |t| ensures RanksNoLower(order, s[0], t[j]) {
        assert t[j] in t;
        if t[j] != x {
          var k :| 0 <= k < |s[1..]| && s[1..][k] == t[j];
          assert s[k + 1] == t[j];
        }
      }
      forall i, j | 0 <= i < j < |r| ensures RanksNoLower(order, r[i], r[j]) {
        if i == 0 {
          assert r[j] == t[j - 1];
        } else {
          assert r[i] == t[i - 1] && r[j] == t[j - 1];
        }
      }
    }
  }

  /** `sorted(scores.items(), key=sort_key)`: a stable sort on that key. */
  function Ranking(order: map<UserId, int>, s: Board): (r: Board)
    ensures |r| == |s|
    ensures Ranked(order, r)
  {
    if s == [] then [] else
      assert s == [s[0]] + s[1..];
      var t := Ranking(order, s[1..]);
      InsertRanked(order, s[0], t);
      Insert(order, s[0], t)
  }

  /** Inserting keeps every entry and adds exactly one. */
  lemma {:induction false} InsertMultiset(order: map<UserId, int>, x: (UserId, int), s: Board)
    ensures multiset(Insert(order, x, s)) == multiset(s) + multiset{x}
  {
    if s != [] && !RanksNoLower(order, x, s[0]) {
      InsertMultiset(order, x, s[1..]);
      assert s == [s[0]] + s[1..];
    }
  }

  /** The ranking lists every ledger entry exactly as often as the ledger holds it. */
  lemma {:induction false} RankingMultiset(order: map<UserId, int>, s: Board)
    ensures multiset(Ranking(order, s)) == multiset(s)
  {
    if s != [] {
      RankingMultiset(order, s[1..]);
      InsertMultiset(order, s[0], Ranking(order, s[1..]));
      assert s == [s[0]] + s[1..];
    }
  }

  /** A board that is already ranked stays as it is, so ranking a ranking changes nothing. */
  lemma {:induction false} RankingOfRanked(order: map<UserId, int>, s: Board)
    requires Ranked(order, s)
    ensures Ranking(order, s) == s
  {
    if s != [] {
      RankedTail(order, s);
      RankingOfRanked(order, s[1..]);
      RankingStep(order, s);
      InsertFront(order, s[0], s[1..]);
      assert s == [s[0]] + s[1..];
    }
  }

  lemma RankedTail(order: map<UserId, int>, s: Board)
    requires Ranked(order, s) && s != []
    ensures Ranked(order, s[1..])
    ensures |s| > 1 ==> RanksNoLower(order, s[0], s[1])
  {
    forall i, j | 0 <= i < j < |s| - 1 ensures RanksNoLower(order, s[1..][i], s[1..][j]) {
      assert s[1..][i] == s[i + 1] && s[1..][j] == s[j + 1];
    }
  }

  lemma RankingStep(order: map<UserId, int>, s: Board)
    requires s != []
    ensures Ranking(order, s) == Insert(order, s[0], Ranking(order, s[1..]))
  {
  }

  lemma InsertFront(order: map<UserId, int>, x: (UserId, int), t: Board)
    requires t == [] || RanksNoLower(order, x, t[0])
    ensures Insert(order, x, t) == [x] + t
  {
  }

  /** `seq[:limit]` with Python's slice rules: a negative bound counts from the end. */
  function SliceTo<T>(s: seq<T>, limit: int): (r: seq<T>)
    ensures |r| == if limit >= 0 then Min(limit, |s|) else Max(0, |s| + limit)
    ensures r == s[..|r|]
  {
    if limit >= 0 then s[..Min(limit, |s|)] else s[..Max(0, |s| + limit)]
  }

  /** `!top`: nothing when the ledger is empty, otherwise the first `limit` of the ranking. */
  function Top(v: LedgerView, limit: int): Option<Board> {
    if v.totals == [] then None else Some(SliceTo(Ranking(v.order, v.totals), limit))
  }

  /**
   * The listing is the first `limit` entries of the ranking (Python's
   * slice rules for a negative `limit`): every listed player is a ledger
   * entry, each entry is listed at most once, and each listed player
   * ranks no lower than every player left off the list.
   */
  lemma TopIsBest(v: LedgerView, limit: int)
    requires v.totals != []
    ensures var r := Ranking(v.order, v.totals);
      var top := Top(v, limit).value;
      && |top| == (if limit >= 0 then Min(limit, |v.totals|) else Max(0, |v.totals| + limit))
      && top == r[..|top|] && Ranked(v.order, top)
      && multiset(top) <= multiset(v.totals)
      && (limit >= |v.totals| ==> multiset(top) == multiset(v.totals))
      && (forall i, j :: 0 <= i < |top| <= j < |r| ==> RanksNoLower(v.order, top[i], r[j]))
  {
    var r := Ranking(v.order, v.totals);
    var k := if limit >= 0 then Min(limit, |r|) else Max(0, |r| + limit);
    RankingMultiset(v.order, v.totals);
    TopPrefix(v, limit, r, k);
    RankedPrefix(v.order, r, k);
  }

  /** The listing is the first `k` entries of the ranking, all of it when `limit` reaches the end. */
  lemma TopPrefix(v: LedgerView, limit: int, r: Board, k: nat)
    requires v.totals != [] && r == Ranking(v.order, v.totals)
    requires k == if limit >= 0 then Min(limit, |r|) else Max(0, |r| + limit)
    ensures k <= |r| && Top(v, limit) == Some(r[..k])
    ensures limit >= |v.totals| ==> k == |r| && r[..k] == r
  {
    assert Top(v, limit) == Some(SliceTo(r, limit));
  }

  /** A prefix of a ranked board is drawn from it and ranks no lower than what follows. */
  lemma RankedPrefix(order: map<UserId, int>, s: Board, k: nat)
    requires Ranked(order, s) && k <= |s|
    ensures multiset(s[..k]) <= multiset(s)
    ensures forall i, j :: 0 <= i < k <= j < |s| ==> RanksNoLower(order, s[i], s[j])
  {
    assert s == s[..k] + s[k..];
  }
}
