/**
 * Balanced selection of raw multiple-choice questions for `!quiz`
 * (`collect_raw_mc_questions` with its inner `filter_english`).
 *
 * Two sources are asked for some questions each; the ones whose English
 * text is short enough and that have exactly four options survive; the
 * survivors are shuffled per source and then picked in three phases:
 * a round robin that respects each source's target (about 40% Trivia,
 * 60% OpenTDB) and a per-family cap of 20%, a pass over the leftovers
 * that still respects the cap, and a last pass that ignores it.
 *
 * A question is identified by where it came from (source and position in
 * the fetched list), as Python's `id()` identifies the objects; two equal
 * questions from different fetches are still two questions.
 */
module Selection {
  import opened Common

  datatype Source = Trivia | OpenTdb

  datatype RawQuestion = RawQuestion(
    question: string,
    correct: string,
    incorrects: seq<string>,
    family: string)

  /** One fetched question object: its source, its position in the fetched list, its data. */
  datatype Candidate = Candidate(origin: Source, slot: nat, raw: RawQuestion)

  /** The order each `random.shuffle` call leaves its list in (see `Common.Permute`). */
  datatype Shuffles = Shuffles(trivia: seq<nat>, opentdb: seq<nat>, leftovers: seq<nat>, lastResort: seq<nat>)

  // ---------------------------------------------------------------------
  // Targets and limits
  // ---------------------------------------------------------------------

  /**
   * `(trivia_target, opentdb_target)`. `int(round(total * 0.4))` is
   * `(4 * total + 5) / 10`: two fifths of an integer never ends in exactly
   * one half, so rounding to nearest is flooring after adding one half.
   */
  function SplitTargets(total: int): (r: (int, int))
    requires total >= 1
    ensures r.0 >= 0 && r.1 >= 1
    ensures r.0 + r.1 == total
    ensures total == 1 ==> r == (0, 1)
    ensures total >= 2 ==> r.0 >= 1 && -4 <= 10 * r.0 - 4 * total <= 4
  {
    TwoFifthsRounded(total);
    var trivia := Max(1, (4 * total + 5) / 10);
    var opentdb := total - trivia;
    if opentdb < 1 then (total - 1, 1) else (trivia, opentdb)
  }

  /** Rounding two fifths of `t` to the nearest integer misses by at most two fifths of one. */
  lemma TwoFifthsRounded(t: int)
    requires t >= 1
    ensures -4 <= 10 * ((4 * t + 5) / 10) - 4 * t <= 4
    ensures t >= 2 ==> (4 * t + 5) / 10 >= 1
  {
    var q, m := (4 * t + 5) / 10, (4 * t + 5) % 10;
    assert 4 * t + 5 == 10 * q + m && 0 <= m < 10;
    assert m == 2 * (2 * t - 5 * q) + 5;
  }

  /** How many questions a source is asked for: `max(target * 3, target + 5)`. */
  function FetchLimit(target: int): nat
    requires target >= 0
  {
    Max(target * 3, target + 5)
  }

  /** `max(1, int(total * 0.2))`: at most a fifth of the questions from one family. */
  function MaxPerFamily(total: int): (cap: nat)
    requires total >= 1
    ensures cap >= 1
    ensures 5 * cap <= Max(total, 5) < 5 * cap + 5
  {
    Max(1, total / 5)
  }

  // ---------------------------------------------------------------------
  // filter_english
  // ---------------------------------------------------------------------

  /** A non-empty question of at most 160 characters and exactly four non-empty options of at most 90. */
  predicate PassesFilter(q: RawQuestion) {
    && 0 < |q.question| <= 2 * MaxQuestionChars
    && |[q.correct] + q.incorrects| == 4
    && forall o :: o in [q.correct] + q.incorrects ==> 0 < |o| <= 2 * MaxOptionChars
  }

  /** The questions of `fetched[from..]` that pass the filter, in fetched order. */
  function FilterFrom(src: Source, fetched: seq<RawQuestion>, from: nat): (r: seq<Candidate>)
    requires from <= |fetched|
    ensures forall c :: c in r <==>
      c.origin == src && from <= c.slot < |fetched| && c.raw == fetched[c.slot] && PassesFilter(c.raw)
    ensures forall i, j :: 0 <= i < j < |r| ==> r[i].slot < r[j].slot
    decreases |fetched| - from
  {
    if from == |fetched| then []
    else
      var rest := FilterFrom(src, fetched, from + 1);
      if PassesFilter(fetched[from]) then [Candidate(src, from, fetched[from])] + rest else rest
  }

  /** `filter_english(fetched)`: identities kept, order kept. */
  function FilterEnglish(src: Source, fetched: seq<RawQuestion>): seq<Candidate> {
    FilterFrom(src, fetched, 0)
  }

  lemma FilterEnglishSpec(src: Source, fetched: seq<RawQuestion>)
    ensures forall c :: c in FilterEnglish(src, fetched) <==>
      c.origin == src && c.slot < |fetched| && c.raw == fetched[c.slot] && PassesFilter(c.raw)
    ensures Distinct(FilterEnglish(src, fetched))
  {
    var r := FilterEnglish(src, fetched);
    forall i, j | 0 <= i < j < |r| ensures r[i] != r[j] {
      assert r[i].slot < r[j].slot;
    }
  }

  /** Every question that survives the filter, OpenTDB's first. */
  ghost function Survivors(total: int, fetchTrivia: nat -> seq<RawQuestion>, fetchOpenTdb: nat -> seq<RawQuestion>): seq<Candidate>
    requires total >= 1
  {
    var (tt, ot) := SplitTargets(total);
    FilterEnglish(OpenTdb, fetchOpenTdb(FetchLimit(ot))) + FilterEnglish(Trivia, fetchTrivia(FetchLimit(tt)))
  }

  // ---------------------------------------------------------------------
  // Counting
  // ---------------------------------------------------------------------

  function CountOrigin(s: seq<Candidate>, src: Source): nat {
    if s == [] then 0
    else CountOrigin(s[..|s| - 1], src) + (if s[|s| - 1].origin == src then 1 else 0)
  }

  function CountFamily(s: seq<Candidate>, f: string): nat {
    if s == [] then 0
    else CountFamily(s[..|s| - 1], f) + (if s[|s| - 1].raw.family == f then 1 else 0)
  }

  lemma CountsAppend(s: seq<Candidate>, c: Candidate)
    ensures forall src :: CountOrigin(s + [c], src) == CountOrigin(s, src) + (if c.origin == src then 1 else 0)
    ensures forall f :: CountFamily(s + [c], f) == CountFamily(s, f) + (if c.raw.family == f then 1 else 0)
  {
    assert (s + [c])[..|s|] == s;
  }

  /** `family_counts.get(f, 0)` */
  function FamilyCount(counts: map<string, nat>, f: string): nat {
    if f in counts then counts[f] else 0
  }

  /** `family_counts` agrees with `selected` and no family is over the cap. */
  ghost predicate Tally(selected: seq<Candidate>, counts: map<string, nat>, cap: nat) {
    forall f :: FamilyCount(counts, f) == CountFamily(selected, f) <= cap
  }

  /** A pool holds questions of one source, each once. */
  ghost predicate PoolOf(pool: seq<Candidate>, src: Source) {
    Distinct(pool) && forall c :: c in pool ==> c.origin == src
  }

  /** What has been taken from this source lies before its index. */
  ghost predicate Picked(selected: seq<Candidate>, pool: seq<Candidate>, idx: nat, src: Source)
    requires idx <= |pool|
  {
    forall c :: c in selected && c.origin == src ==> c in pool[..idx]
  }

  /** Every question before `idx` was taken, or its family is at the cap. */
  ghost predicate Skipped(pool: seq<Candidate>, idx: nat, selected: seq<Candidate>, cap: nat)
    requires idx <= |pool|
  {
    forall k :: 0 <= k < idx ==> pool[k] in selected || CountFamily(selected, pool[k].raw.family) >= cap
  }

  lemma SkippedGrows(pool: seq<Candidate>, idx: nat, selected: seq<Candidate>, c: Candidate, cap: nat)
    requires idx <= |pool| && Skipped(pool, idx, selected, cap)
    ensures Skipped(pool, idx, selected + [c], cap)
  {
    CountsAppend(selected, c);
    forall k | 0 <= k < idx
      ensures pool[k] in selected + [c] || CountFamily(selected + [c], pool[k].raw.family) >= cap
    {
      if pool[k] in selected {
        assert pool[k] in selected + [c];
      }
    }
  }

  // ---------------------------------------------------------------------
  // The three phases
  // ---------------------------------------------------------------------

  /** Skip, from `idx0` on, the questions whose family is at the cap. */
  method SkipCapped(pool: seq<Candidate>, idx0: nat, selected: seq<Candidate>, counts: map<string, nat>, cap: nat)
    returns (idx: nat)
    requires idx0 <= |pool| && Skipped(pool, idx0, selected, cap) && Tally(selected, counts, cap)
    ensures idx0 <= idx <= |pool| && Skipped(pool, idx, selected, cap)
    ensures idx < |pool| ==> CountFamily(selected, pool[idx].raw.family) < cap
  {
    idx := idx0;
    while idx < |pool| && FamilyCount(counts, pool[idx].raw.family) >= cap
      invariant idx0 <= idx <= |pool|
      invariant Skipped(pool, idx, selected, cap)
    {
      idx := idx + 1;
    }
  }

  /** Taking the question at `idx` of the source's pool keeps the source's bookkeeping. */
  lemma TakeKeeps(src: Source, pool: seq<Candidate>, idx0: nat, idx: nat, selected0: seq<Candidate>, counts0: map<string, nat>, cap: nat)
    requires idx0 <= idx < |pool| && PoolOf(pool, src)
    requires Picked(selected0, pool, idx0, src) && Skipped(pool, idx, selected0, cap)
    requires Tally(selected0, counts0, cap) && Distinct(selected0)
    requires CountFamily(selected0, pool[idx].raw.family) < cap
    ensures var c := pool[idx];
      var selected := selected0 + [c];
      && Picked(selected, pool, idx + 1, src) && Skipped(pool, idx + 1, selected, cap)
      && Tally(selected, counts0[c.raw.family := FamilyCount(counts0, c.raw.family) + 1], cap)
      && Distinct(selected)
  {
    var c := pool[idx];
    assert c !in selected0 by {
      DistinctSuffixDisjoint(pool, idx0, c);
    }
    AppendKeeps(selected0, counts0, c, cap);
    SkippedGrows(pool, idx, selected0, c, cap);
    forall x | x in selected0 + [c] && x.origin == src ensures x in pool[..idx + 1] {
      if x != c {
        assert x in pool[..idx0];
      }
    }
  }

  /**
   * One source's turn in the phase-1 round robin: skip the questions whose
   * family is at the cap, then take the next one if there is one.
   */
  method Turn(src: Source, pool: seq<Candidate>, idx0: nat, selected0: seq<Candidate>, counts0: map<string, nat>, cap: nat)
    returns (idx: nat, selected: seq<Candidate>, counts: map<string, nat>, took: bool)
    requires idx0 <= |pool| && PoolOf(pool, src)
    requires Picked(selected0, pool, idx0, src) && Skipped(pool, idx0, selected0, cap)
    requires Tally(selected0, counts0, cap) && Distinct(selected0)
    ensures idx0 <= idx <= |pool|
    ensures took ==> idx > idx0 && selected == selected0 + [pool[idx - 1]]
    ensures took ==> CountFamily(selected0, pool[idx - 1].raw.family) < cap
    ensures !took ==> idx == |pool| && selected == selected0 && counts == counts0
    ensures Picked(selected, pool, idx, src) && Skipped(pool, idx, selected, cap)
    ensures Tally(selected, counts, cap) && Distinct(selected)
  {
    idx := SkipCapped(pool, idx0, selected0, counts0, cap);
    if idx >= |pool| {
      assert Picked(selected0, pool, idx, src) by {
        forall c | c in selected0 && c.origin == src ensures c in pool[..idx] {
          assert c in pool[..idx0];
        }
      }
      return idx, selected0, counts0, false;
    }
    var c := pool[idx];
    TakeKeeps(src, pool, idx0, idx, selected0, counts0, cap);
    idx := idx + 1;
    selected := selected0 + [c];
    counts := counts0[c.raw.family := FamilyCount(counts0, c.raw.family) + 1];
    took := true;
  }

  /**
   * A turn of `src` seen from both pools: what it takes counts for `src`
   * alone, and the other source's bookkeeping stays true.
   */
  method TurnOf(src: Source, pool: seq<Candidate>, idx0: nat, other: Source, otherPool: seq<Candidate>, otherIdx: nat,
                selected0: seq<Candidate>, counts0: map<string, nat>, cap: nat)
    returns (idx: nat, selected: seq<Candidate>, counts: map<string, nat>, took: bool)
    requires src != other && idx0 <= |pool| && otherIdx <= |otherPool|
    requires PoolOf(pool, src) && PoolOf(otherPool, other)
    requires Picked(selected0, pool, idx0, src) && Skipped(pool, idx0, selected0, cap)
    requires Picked(selected0, otherPool, otherIdx, other) && Skipped(otherPool, otherIdx, selected0, cap)
    requires Tally(selected0, counts0, cap) && Distinct(selected0)
    ensures idx0 <= idx <= |pool| && (!took ==> idx == |pool|)
    ensures |selected| == |selected0| + (if took then 1 else 0)
    ensures CountOrigin(selected, src) == CountOrigin(selected0, src) + (if took then 1 else 0)
    ensures CountOrigin(selected, other) == CountOrigin(selected0, other)
    ensures Picked(selected, pool, idx, src) && Skipped(pool, idx, selected, cap)
    ensures Picked(selected, otherPool, otherIdx, other) && Skipped(otherPool, otherIdx, selected, cap)
    ensures Tally(selected, counts, cap) && Distinct(selected)
  {
    idx, selected, counts, took := Turn(src, pool, idx0, selected0, counts0, cap);
    if took {
      var c := pool[idx - 1];
      CountsAppend(selected0, c);
      SkippedGrows(otherPool, otherIdx, selected0, c, cap);
    }
  }

  /**
   * Phase 1: sources take turns, OpenTDB first, each while it still wants
   * questions; it ends when the selection is full or a whole round took
   * nothing.
   */
  method Phase1(poolO: seq<Candidate>, poolT: seq<Candidate>, targetO: nat, targetT: nat, cap: nat, total: nat)
    returns (selected: seq<Candidate>, counts: map<string, nat>, iO: nat, iT: nat)
    requires PoolOf(poolO, OpenTdb) && PoolOf(poolT, Trivia)
    ensures iO <= |poolO| && iT <= |poolT|
    ensures |selected| <= total && Distinct(selected)
    ensures CountOrigin(selected, OpenTdb) <= targetO && CountOrigin(selected, Trivia) <= targetT
    ensures Picked(selected, poolO, iO, OpenTdb) && Picked(selected, poolT, iT, Trivia)
    ensures Skipped(poolO, iO, selected, cap) && Skipped(poolT, iT, selected, cap)
    ensures Tally(selected, counts, cap)
    ensures |selected| == total ||
      ((CountOrigin(selected, OpenTdb) == targetO || iO == |poolO|) && (CountOrigin(selected, Trivia) == targetT || iT == |poolT|))
  {
    selected, counts, iO, iT := [], map[], 0, 0;
    var desiredO: int, desiredT: int := targetO, targetT;
    while |selected| < total
      invariant iO <= |poolO| && iT <= |poolT|
      invariant |selected| <= total && Distinct(selected)
      invariant desiredO == targetO - CountOrigin(selected, OpenTdb) >= 0
      invariant desiredT == targetT - CountOrigin(selected, Trivia) >= 0
      invariant Picked(selected, poolO, iO, OpenTdb) && Picked(selected, poolT, iT, Trivia)
      invariant Skipped(poolO, iO, selected, cap) && Skipped(poolT, iT, selected, cap)
      invariant Tally(selected, counts, cap)
      decreases total - |selected|
    {
      var tookO, tookT := false, false;
      if desiredO > 0 {
        iO, selected, counts, tookO := TurnOf(OpenTdb, poolO, iO, Trivia, poolT, iT, selected, counts, cap);
        if tookO {
          desiredO := desiredO - 1;
        }
      }
      if |selected| < total && desiredT > 0 {
        iT, selected, counts, tookT := TurnOf(Trivia, poolT, iT, OpenTdb, poolO, iO, selected, counts, cap);
        if tookT {
          desiredT := desiredT - 1;
        }
      }
      if !tookO && !tookT {
        break;
      }
    }
  }

  /**
   * Phase 1 has served `src` when it took the source's whole target, or
   * when every question of that source it left behind belongs to a family
   * already at the cap.
   */
  ghost predicate Served(selected: seq<Candidate>, src: Source, target: nat, candidates: seq<Candidate>, cap: nat) {
    || CountOrigin(selected, src) == target
    || forall c :: c in candidates && c.origin == src && c !in selected ==> CountFamily(selected, c.raw.family) >= cap
  }

  /** A pool looked at to its end leaves only questions whose family is at the cap. */
  lemma Exhausted(pool: seq<Candidate>, selected: seq<Candidate>, cap: nat)
    requires Skipped(pool, |pool|, selected, cap)
    ensures forall c :: c in pool && c !in selected ==> CountFamily(selected, c.raw.family) >= cap
  {
    forall c | c in pool && c !in selected ensures CountFamily(selected, c.raw.family) >= cap {
      var k :| 0 <= k < |pool| && pool[k] == c;
    }
  }

  /** When phase 1 stops short of the total, it has served both sources. */
  lemma Phase1Served(poolO: seq<Candidate>, poolT: seq<Candidate>, targetO: nat, targetT: nat, cap: nat,
                     selected: seq<Candidate>, iO: nat, iT: nat)
    requires PoolOf(poolO, OpenTdb) && PoolOf(poolT, Trivia) && iO <= |poolO| && iT <= |poolT|
    requires Skipped(poolO, iO, selected, cap) && Skipped(poolT, iT, selected, cap)
    requires (CountOrigin(selected, OpenTdb) == targetO || iO == |poolO|) && (CountOrigin(selected, Trivia) == targetT || iT == |poolT|)
    ensures Served(selected, OpenTdb, targetO, poolO + poolT, cap) && Served(selected, Trivia, targetT, poolO + poolT, cap)
  {
    if CountOrigin(selected, OpenTdb) != targetO {
      Exhausted(poolO, selected, cap);
    }
    if CountOrigin(selected, Trivia) != targetT {
      Exhausted(poolT, selected, cap);
    }
  }

  /** Taking a question that is not yet taken and whose family is under the cap keeps the tally. */
  lemma AppendKeeps(selected: seq<Candidate>, counts: map<string, nat>, c: Candidate, cap: nat)
    requires Tally(selected, counts, cap) && Distinct(selected)
    requires c !in selected && CountFamily(selected, c.raw.family) < cap
    ensures Tally(selected + [c], counts[c.raw.family := FamilyCount(counts, c.raw.family) + 1], cap)
    ensures Distinct(selected + [c])
  {
    CountsAppend(selected, c);
    DistinctConcat(selected, [c]);
  }

  /** The leftovers of phase 1 are each once in `remaining` and none of them was taken. */
  lemma LeftoversFresh(poolO: seq<Candidate>, poolT: seq<Candidate>, iO: nat, iT: nat, selected1: seq<Candidate>)
    requires iO <= |poolO| && iT <= |poolT|
    requires PoolOf(poolO, OpenTdb) && PoolOf(poolT, Trivia)
    requires Picked(selected1, poolO, iO, OpenTdb) && Picked(selected1, poolT, iT, Trivia)
    ensures Distinct(poolO[iO..] + poolT[iT..])
    ensures forall x :: x in poolO[iO..] + poolT[iT..] ==> x !in selected1
    ensures forall x :: x in poolO[iO..] + poolT[iT..] ==> x in poolO || x in poolT
  {
    forall x | x in poolO[iO..] ensures x !in poolT[iT..] {
      assert x.origin == OpenTdb;
    }
    DistinctConcat(poolO[iO..], poolT[iT..]);
    forall x | x in poolO[iO..] + poolT[iT..] ensures x !in selected1 {
      if x in poolO[iO..] {
        DistinctSuffixDisjoint(poolO, iO, x);
      } else {
        DistinctSuffixDisjoint(poolT, iT, x);
      }
    }
  }

  /** Once phase 2 has looked at every leftover, each question not taken has its family at the cap. */
  lemma LeftoversCovered(poolO: seq<Candidate>, poolT: seq<Candidate>, iO: nat, iT: nat, rest: seq<Candidate>,
                         selected: seq<Candidate>, cap: nat)
    requires iO <= |poolO| && iT <= |poolT|
    requires forall x :: x in rest <==> x in poolO[iO..] + poolT[iT..]
    requires Skipped(poolO, iO, selected, cap) && Skipped(poolT, iT, selected, cap) && Skipped(rest, |rest|, selected, cap)
    ensures forall c :: (c in poolO || c in poolT) && c !in selected ==> CountFamily(selected, c.raw.family) >= cap
  {
    forall c | (c in poolO || c in poolT) && c !in selected
      ensures CountFamily(selected, c.raw.family) >= cap
    {
      if c in poolO {
        var k :| 0 <= k < |poolO| && poolO[k] == c;
        if k >= iO {
          assert poolO[iO..][k - iO] == c;
          assert c in rest;
        }
      } else {
        var k :| 0 <= k < |poolT| && poolT[k] == c;
        if k >= iT {
          assert poolT[iT..][k - iT] == c;
          assert c in rest;
        }
      }
    }
  }

  lemma PickedWithin(selected: seq<Candidate>, poolO: seq<Candidate>, poolT: seq<Candidate>, iO: nat, iT: nat)
    requires iO <= |poolO| && iT <= |poolT|
    requires Picked(selected, poolO, iO, OpenTdb) && Picked(selected, poolT, iT, Trivia)
    ensures forall c :: c in selected ==> c in poolO || c in poolT
  {
    forall c | c in selected ensures c in poolO || c in poolT {
      if c.origin == OpenTdb {
        assert c in poolO[..iO];
      } else {
        assert c in poolT[..iT];
      }
    }
  }

  /** One leftover looked at in phase 2: taken when its family is under the cap. */
  method LeftoverStep(poolO: seq<Candidate>, poolT: seq<Candidate>, iO: nat, iT: nat, rest: seq<Candidate>, j: nat,
                      selected1: seq<Candidate>, selected0: seq<Candidate>, counts0: map<string, nat>, cap: nat)
    returns (selected: seq<Candidate>, counts: map<string, nat>)
    requires iO <= |poolO| && iT <= |poolT| && j < |rest| && Distinct(rest)
    requires |selected1| <= |selected0| && selected0[..|selected1|] == selected1
    requires forall x :: x in rest ==> x !in selected1
    requires forall x :: x in selected0 ==> x in selected1 || x in rest[..j]
    requires Distinct(selected0) && Tally(selected0, counts0, cap)
    requires Skipped(poolO, iO, selected0, cap) && Skipped(poolT, iT, selected0, cap) && Skipped(rest, j, selected0, cap)
    ensures |selected0| <= |selected| <= |selected0| + 1 && selected[..|selected1|] == selected1
    ensures forall x :: x in selected ==> x in selected1 || x in rest[..j + 1]
    ensures Distinct(selected) && Tally(selected, counts, cap)
    ensures Skipped(poolO, iO, selected, cap) && Skipped(poolT, iT, selected, cap) && Skipped(rest, j + 1, selected, cap)
  {
    selected, counts := selected0, counts0;
    var c := rest[j];
    assert rest[..j + 1] == rest[..j] + [c];
    if FamilyCount(counts, c.raw.family) < cap {
      DistinctSuffixDisjoint(rest, j, c);
      AppendKeeps(selected, counts, c, cap);
      SkippedGrows(poolO, iO, selected, c, cap);
      SkippedGrows(poolT, iT, selected, c, cap);
      SkippedGrows(rest, j, selected, c, cap);
      assert (selected + [c])[..|selected1|] == selected[..|selected1|];
      selected := selected + [c];
      counts := counts[c.raw.family := FamilyCount(counts, c.raw.family) + 1];
    }
  }

  /** Phase 2: the leftovers of both sources, shuffled together, taken while the cap allows. */
  method Phase2(poolO: seq<Candidate>, poolT: seq<Candidate>, iO: nat, iT: nat, perm: seq<nat>,
                selected1: seq<Candidate>, counts1: map<string, nat>, cap: nat, total: nat)
    returns (selected: seq<Candidate>, counts: map<string, nat>)
    requires iO <= |poolO| && iT <= |poolT|
    requires PoolOf(poolO, OpenTdb) && PoolOf(poolT, Trivia)
    requires Picked(selected1, poolO, iO, OpenTdb) && Picked(selected1, poolT, iT, Trivia)
    requires Skipped(poolO, iO, selected1, cap) && Skipped(poolT, iT, selected1, cap)
    requires Tally(selected1, counts1, cap) && Distinct(selected1) && |selected1| <= total
    ensures |selected1| <= |selected| <= total && selected[..|selected1|] == selected1
    ensures Distinct(selected) && Tally(selected, counts, cap)
    ensures forall c :: c in selected ==> c in poolO || c in poolT
    ensures |selected| < total ==>
      forall c :: (c in poolO || c in poolT) && c !in selected ==> CountFamily(selected, c.raw.family) >= cap
  {
    selected, counts := selected1, counts1;
    PickedWithin(selected1, poolO, poolT, iO, iT);
    if |selected| < total {
      var remaining := poolO[iO..] + poolT[iT..];
      LeftoversFresh(poolO, poolT, iO, iT, selected1);
      var rest := Permute(remaining, perm);
      var j := 0;
      while j < |rest|
        invariant 0 <= j <= |rest|
        invariant |selected1| <= |selected| <= total && selected[..|selected1|] == selected1
        invariant forall x :: x in selected ==> x in selected1 || x in rest[..j]
        invariant Distinct(selected) && Tally(selected, counts, cap)
        invariant Skipped(poolO, iO, selected, cap) && Skipped(poolT, iT, selected, cap)
        invariant Skipped(rest, j, selected, cap)
      {
        if |selected| >= total {
          break;
        }
        selected, counts := LeftoverStep(poolO, poolT, iO, iT, rest, j, selected1, selected, counts, cap);
        j := j + 1;
      }
      forall c | c in selected ensures c in poolO || c in poolT {
        if c !in selected1 {
          assert c in rest[..j];
          assert c in remaining;
        }
      }
      if |selected| < total {
        LeftoversCovered(poolO, poolT, iO, iT, rest, selected, cap);
      }
    }
  }

  /** The questions of `pool` not in `used`, in pool order. */
  method Unused(pool: seq<Candidate>, used: set<Candidate>) returns (r: seq<Candidate>)
    ensures forall c :: c in r <==> c in pool && c !in used
    ensures Distinct(pool) ==> Distinct(r)
  {
    r := [];
    var i := 0;
    while i < |pool|
      invariant 0 <= i <= |pool|
      invariant forall c :: c in r <==> c in pool[..i] && c !in used
      invariant Distinct(pool) ==> Distinct(r)
    {
      assert pool[..i + 1] == pool[..i] + [pool[i]];
      if pool[i] !in used {
        if Distinct(pool) {
          DistinctSuffixDisjoint(pool, i, pool[i]);
          DistinctConcat(r, [pool[i]]);
        }
        r := r + [pool[i]];
      }
      i := i + 1;
    }
    assert pool[..i] == pool;
  }

  /** What phase 2 took and what phase 3 may take are together every survivor, each once. */
  lemma LastResortExact(all: seq<Candidate>, selected2: seq<Candidate>, rest: seq<Candidate>)
    requires Distinct(all) && Distinct(selected2) && Distinct(rest)
    requires forall x :: x in rest <==> x in all && x !in selected2
    requires forall x :: x in selected2 ==> x in all
    ensures Distinct(selected2 + rest)
    ensures |selected2| + |rest| == |all|
    ensures forall x :: x in selected2 + rest ==> x in all
  {
    DistinctConcat(selected2, rest);
    DistinctWithin(selected2 + rest, all);
    DistinctWithin(all, selected2 + rest);
  }

  /** Append questions of `rest`, in order, until `total` are selected or `rest` runs out. */
  method Fill(selected2: seq<Candidate>, rest: seq<Candidate>, total: nat) returns (selected: seq<Candidate>)
    requires |selected2| <= total
    ensures selected == selected2 + rest[..Min(|rest|, total - |selected2|)]
  {
    selected := selected2;
    var j := 0;
    while j < |rest| && |selected| < total
      invariant 0 <= j <= |rest|
      invariant selected == selected2 + rest[..j] && |selected| <= total
    {
      selected := selected + [rest[j]];
      j := j + 1;
      assert rest[..j] == rest[..j - 1] + [rest[j - 1]];
    }
  }

  /** Two pools of different sources share no question. */
  lemma PoolsDisjoint(poolO: seq<Candidate>, poolT: seq<Candidate>, a: seq<Candidate>, b: seq<Candidate>)
    requires PoolOf(poolO, OpenTdb) && PoolOf(poolT, Trivia)
    requires Distinct(a) && Distinct(b)
    requires forall x :: x in a ==> x in poolO
    requires forall x :: x in b ==> x in poolT
    ensures Distinct(a + b)
  {
    forall x | x in a ensures x !in b {
      assert x.origin == OpenTdb;
    }
    DistinctConcat(a, b);
  }

  /** A prefix of a sequence without repetitions has none either. */
  lemma DistinctPrefix<T>(s: seq<T>, k: nat)
    requires Distinct(s) && k <= |s|
    ensures Distinct(s[..k])
  {
    forall a, b | 0 <= a < b < k ensures s[..k][a] != s[..k][b] {
      assert s[..k][a] == s[a] && s[..k][b] == s[b];
    }
  }

  /** Phase 3: everything not yet taken, shuffled, taken with no cap until full. */
  method Phase3(poolO: seq<Candidate>, poolT: seq<Candidate>, perm: seq<nat>, selected2: seq<Candidate>, total: nat)
    returns (selected: seq<Candidate>)
    requires PoolOf(poolO, OpenTdb) && PoolOf(poolT, Trivia)
    requires Distinct(selected2) && |selected2| <= total
    requires forall c :: c in selected2 ==> c in poolO || c in poolT
    ensures |selected2| <= |selected| && selected[..|selected2|] == selected2
    ensures Distinct(selected) && forall c :: c in selected ==> c in poolO || c in poolT
    ensures |selected| == Min(total, |poolO| + |poolT|)
  {
    ghost var all := poolO + poolT;
    PoolsDisjoint(poolO, poolT, poolO, poolT);
    DistinctWithin(selected2, all);
    selected := selected2;
    if |selected| < total {
      var used := ToSet(selected2);
      var unusedO := Unused(poolO, used);
      var unusedT := Unused(poolT, used);
      var remainingAll := unusedO + unusedT;
      PoolsDisjoint(poolO, poolT, unusedO, unusedT);
      var rest := Permute(remainingAll, perm);
      LastResortExact(all, selected2, rest);
      selected := Fill(selected2, rest, total);
      ghost var k := |selected|;
      assert selected == (selected2 + rest)[..k];
      DistinctPrefix(selected2 + rest, k);
      forall c | c in selected ensures c in poolO || c in poolT {
        assert c in selected2 + rest;
      }
    }
  }

  // ---------------------------------------------------------------------
  // collect_raw_mc_questions
  // ---------------------------------------------------------------------

  /**
   * The three phases over the shuffled pools of the two sources.
   * `phase1` and `phase2` are how many had been selected when phases 1 and
   * 2 ended.
   */
  method SelectFromPools(poolO: seq<Candidate>, poolT: seq<Candidate>, targetO: nat, targetT: nat, cap: nat, total: nat,
                         shuffles: Shuffles)
    returns (selected: seq<Candidate>, ghost phase1: nat, ghost phase2: nat)
    requires PoolOf(poolO, OpenTdb) && PoolOf(poolT, Trivia)
    ensures |selected| == Min(total, |poolO| + |poolT|)
    ensures Distinct(selected) && forall c :: c in selected ==> c in poolO || c in poolT
    ensures phase1 <= phase2 <= |selected|
    ensures CountOrigin(selected[..phase1], Trivia) <= targetT && CountOrigin(selected[..phase1], OpenTdb) <= targetO
    ensures phase1 < total ==>
      Served(selected[..phase1], OpenTdb, targetO, poolO + poolT, cap) && Served(selected[..phase1], Trivia, targetT, poolO + poolT, cap)
    ensures forall f :: CountFamily(selected[..phase2], f) <= cap
    ensures phase2 < total ==>
      forall c :: (c in poolO || c in poolT) && c !in selected[..phase2] ==> CountFamily(selected[..phase2], c.raw.family) >= cap
  {
    var counts, iO, iT;
    selected, counts, iO, iT := Phase1(poolO, poolT, targetO, targetT, cap, total);
    phase1 := |selected|;
    if phase1 < total {
      Phase1Served(poolO, poolT, targetO, targetT, cap, selected, iO, iT);
    }
    ghost var afterPhase1 := selected;
    selected, counts := Phase2(poolO, poolT, iO, iT, shuffles.leftovers, selected, counts, cap, total);
    phase2 := |selected|;
    ghost var afterPhase2 := selected;
    selected := Phase3(poolO, poolT, shuffles.lastResort, selected, total);
    assert selected[..phase1] == afterPhase1 by {
      assert selected[..phase2][..phase1] == selected[..phase1];
    }
    assert selected[..phase2] == afterPhase2;
  }

  /**
   * What `collect_raw_mc_questions(total)` promises of its selection, with
   * `phase1` and `phase2` how many had been selected when phases 1 and 2
   * ended: at most `total` distinct survivors of the filter, as many as
   * there are up to `total`; phase 1 keeps within each source's target and
   * stops short of the total only once it has served both sources; the
   * first two phases keep every family within the cap, and phase 2 stops
   * short of the total only when every question left belongs to a family
   * at the cap.
   */
  ghost predicate Collected(total: int, fetchTrivia: nat -> seq<RawQuestion>, fetchOpenTdb: nat -> seq<RawQuestion>,
                            selected: seq<Candidate>, phase1: nat, phase2: nat)
    requires total >= 1
  {
    var survivors := Survivors(total, fetchTrivia, fetchOpenTdb);
    var (tt, ot) := SplitTargets(total);
    var cap := MaxPerFamily(total);
    && |selected| == Min(total, |survivors|)
    && Distinct(selected)
    && (forall c :: c in selected ==> c in survivors && PassesFilter(c.raw))
    && phase1 <= phase2 <= |selected|
    && CountOrigin(selected[..phase1], Trivia) <= tt
    && CountOrigin(selected[..phase1], OpenTdb) <= ot
    && (phase1 < total ==>
          Served(selected[..phase1], OpenTdb, ot, survivors, cap) && Served(selected[..phase1], Trivia, tt, survivors, cap))
    && (forall f :: CountFamily(selected[..phase2], f) <= cap)
    && (phase2 < total ==>
          forall c :: c in survivors && c !in selected[..phase2] ==> CountFamily(selected[..phase2], c.raw.family) >= cap)
  }

  /** Selects up to `total` questions from what the two fetchers return. */
  method CollectRawMcQuestions(total: int, fetchTrivia: nat -> seq<RawQuestion>, fetchOpenTdb: nat -> seq<RawQuestion>, shuffles: Shuffles)
    returns (selected: seq<Candidate>, ghost phase1: nat, ghost phase2: nat)
    ensures total <= 0 ==> selected == []
    ensures total >= 1 ==> Collected(total, fetchTrivia, fetchOpenTdb, selected, phase1, phase2)
  {
    if total <= 0 {
      return [], 0, 0;
    }
    var (triviaTarget, opentdbTarget) := SplitTargets(total);
    var triviaPool := FilterEnglish(Trivia, fetchTrivia(FetchLimit(triviaTarget)));
    var opentdbPool := FilterEnglish(OpenTdb, fetchOpenTdb(FetchLimit(opentdbTarget)));
    FilterEnglishSpec(Trivia, fetchTrivia(FetchLimit(triviaTarget)));
    FilterEnglishSpec(OpenTdb, fetchOpenTdb(FetchLimit(opentdbTarget)));
    ghost var survivors := opentdbPool + triviaPool;
    assert survivors == Survivors(total, fetchTrivia, fetchOpenTdb);

    triviaPool := Permute(triviaPool, shuffles.trivia);
    opentdbPool := Permute(opentdbPool, shuffles.opentdb);
    assert forall c :: c in survivors <==> c in opentdbPool || c in triviaPool;
    assert |survivors| == |opentdbPool| + |triviaPool|;

    if triviaPool + opentdbPool == [] {
      return [], 0, 0;
    }

    selected, phase1, phase2 := SelectFromPools(opentdbPool, triviaPool, opentdbTarget, triviaTarget,
                                                MaxPerFamily(total), total, shuffles);
  }
}
