/**
 * Answer matching for open-answer rounds: `normalize_answer_text` and
 * `is_correct_answer`.
 *
 * A text is stripped, NFKC-normalised, passed through a fixed table that
 * unifies Arabic and Persian letter forms and deletes invisible marks,
 * case-folded, has its punctuation turned into spaces and its whitespace
 * collapsed to single spaces. Unicode NFKC normalisation and case folding
 * are library tables: they are parameters here (`nfkc` on whole strings,
 * `fold` per code point, which is how full case folding works).
 */
module Matching {
  import opened Common

  // ---------------------------------------------------------------------
  // Character classes
  // ---------------------------------------------------------------------

  /** The characters Python's `str.isspace` accepts, which `strip` and `split` remove. */
  predicate IsSpace(c: char) {
    var n := c as int;
    || 0x09 <= n <= 0x0D
    || 0x1C <= n <= 0x20
    || n == 0x85 || n == 0xA0 || n == 0x1680
    || 0x2000 <= n <= 0x200A
    || n == 0x2028 || n == 0x2029 || n == 0x202F || n == 0x205F || n == 0x3000
  }

  /** The punctuation that turns into a space (bot.py:1538-1539). */
  predicate IsPunct(c: char) {
    c in {'.', '!', '?', '\U{060C}', ',', '\U{061B}', ':', '\U{0640}', '\U{00AB}', '\U{00BB}',
          '(', ')', '[', ']', '{', '}', '-', '_', '/', '\\'}
  }

  /** The characters the table rewrites into something else. */
  predicate IsVariant(c: char) {
    c in {'\U{064A}', '\U{0649}', '\U{0626}', '\U{0643}', '\U{06C0}', '\U{0629}', '\U{0624}',
          '\U{0623}', '\U{0625}', '\U{0622}', '\U{200C}', '\U{200F}', '\U{FEFF}'}
  }

  /**
   * The translation table: Arabic yeh forms to Persian yeh, Arabic kaf to
   * Persian keheh, teh marbuta and heh with yeh to heh, waw with hamza to
   * waw, alef with hamza or madda to alef; zero-width non-joiner,
   * right-to-left mark and byte-order mark are deleted.
   */
  function MapChar(c: char): (r: string)
    ensures forall d :: d in r ==> !IsVariant(d)
    ensures !IsVariant(c) ==> r == [c]
  {
    if c in {'\U{064A}', '\U{0649}', '\U{0626}', '\U{06CC}'} then "\U{06CC}"
    else if c == '\U{0643}' then "\U{06A9}"
    else if c in {'\U{06C0}', '\U{0629}'} then "\U{0647}"
    else if c == '\U{0624}' then "\U{0648}"
    else if c in {'\U{0623}', '\U{0625}', '\U{0622}'} then "\U{0627}"
    else if c in {'\U{200C}', '\U{200F}', '\U{FEFF}'} then ""
    else [c]
  }

  // ---------------------------------------------------------------------
  // Per-character rewriting
  // ---------------------------------------------------------------------

  /** Replace every character by a string and concatenate (`str.translate`, `str.casefold`). */
  function FlatMap(f: char -> string, s: string): string {
    if s == [] then [] else f(s[0]) + FlatMap(f, s[1..])
  }

  lemma {:induction false} FlatMapConcat(f: char -> string, a: string, b: string)
    ensures FlatMap(f, a + b) == FlatMap(f, a) + FlatMap(f, b)
  {
    if a != [] {
      assert (a + b)[0] == a[0] && (a + b)[1..] == a[1..] + b;
      FlatMapConcat(f, a[1..], b);
      calc {
        FlatMap(f, a + b);
        f(a[0]) + FlatMap(f, a[1..] + b);
        f(a[0]) + (FlatMap(f, a[1..]) + FlatMap(f, b));
        (f(a[0]) + FlatMap(f, a[1..])) + FlatMap(f, b);
      }
    } else {
      assert a + b == b;
    }
  }

  lemma {:induction false} FlatMapChars(f: char -> string, s: string, d: char)
    requires d in FlatMap(f, s)
    ensures exists c :: c in s && d in f(c)
  {
    if d !in f(s[0]) {
      FlatMapChars(f, s[1..], d);
      var c :| c in s[1..] && d in f(c);
      assert c in s;
    }
  }

  function Translate(s: string): string {
    FlatMap(MapChar, s)
  }

  /** Nothing the table rewrites survives it. */
  lemma TranslateClean(s: string)
    ensures forall d :: d in Translate(s) ==> !IsVariant(d)
  {
    forall d | d in Translate(s) ensures !IsVariant(d) {
      FlatMapChars(MapChar, s, d);
    }
  }

  /** Translating twice is translating once. */
  lemma {:induction false} TranslateIdempotent(s: string)
    ensures Translate(Translate(s)) == Translate(s)
  {
    if s != [] {
      TranslateIdempotent(s[1..]);
      FlatMapConcat(MapChar, MapChar(s[0]), Translate(s[1..]));
      var m := MapChar(s[0]);
      assert Translate(m) == m by {
        if m != [] {
          assert |m| == 1 && !IsVariant(m[0]);
          assert m[1..] == [];
        }
      }
    }
  }

  /** Every punctuation character becomes a space. */
  function ReplacePunct(s: string): (r: string)
    ensures |r| == |s| && forall c :: c in r ==> !IsPunct(c)
    ensures forall i :: 0 <= i < |s| && !IsPunct(s[i]) ==> r[i] == s[i]
  {
    seq(|s|, i requires 0 <= i < |s| => if IsPunct(s[i]) then ' ' else s[i])
  }

  /** Replacing punctuation a second time changes nothing. */
  lemma ReplacePunctIdempotent(s: string)
    ensures ReplacePunct(ReplacePunct(s)) == ReplacePunct(s)
  {
  }

  lemma ReplacePunctConcat(a: string, b: string)
    ensures ReplacePunct(a + b) == ReplacePunct(a) + ReplacePunct(b)
  {
    var l, r := ReplacePunct(a + b), ReplacePunct(a) + ReplacePunct(b);
    forall i | 0 <= i < |l| ensures l[i] == r[i] {
      if i < |a| {
        assert (a + b)[i] == a[i];
      } else {
        assert (a + b)[i] == b[i - |a|];
      }
    }
  }

  // ---------------------------------------------------------------------
  // strip, split and join
  // ---------------------------------------------------------------------

  function StripLeft(s: string): (r: string)
    ensures r == [] || !IsSpace(r[0])
  {
    if s != [] && IsSpace(s[0]) then StripLeft(s[1..]) else s
  }

  function StripRight(s: string): (r: string)
    ensures r == [] || !IsSpace(r[|r| - 1])
  {
    if s != [] && IsSpace(s[|s| - 1]) then StripRight(s[..|s| - 1]) else s
  }

  /** `str.strip()` */
  function Strip(s: string): (r: string)
    ensures r == [] || (!IsSpace(r[0]) && !IsSpace(r[|r| - 1]))
  {
    var l := StripLeft(s);
    var r := StripRight(l);
    assert r != [] ==> r[0] == l[0] by {
      StripRightPrefix(l);
    }
    r
  }

  /**
   * `str.strip()` removes exactly the leading and the trailing whitespace:
   * the line is some whitespace, the stripped text and some whitespace,
   * and the stripped text neither starts nor ends with whitespace.
   */
  lemma StripSpec(s: string)
    ensures var r := Strip(s);
      && (r == [] || (!IsSpace(r[0]) && !IsSpace(r[|r| - 1])))
      && exists lead, trail :: s == lead + r + trail && AllSpace(lead) && AllSpace(trail)
  {
    var l := StripLeft(s);
    var r := StripRight(l);
    assert r == Strip(s);
    LeadSpace(s);
    TrailSpace(l);
    var lead, trail := s[..|s| - |l|], l[|r|..];
    assert s == lead + r + trail by {
      assert s == lead + (r + trail);
    }
  }

  /** What `StripLeft` drops is whitespace. */
  lemma LeadSpace(s: string)
    ensures |StripLeft(s)| <= |s|
    ensures s == s[..|s| - |StripLeft(s)|] + StripLeft(s) && AllSpace(s[..|s| - |StripLeft(s)|])
  {
    StripLeftSuffix(s);
  }

  /** What `StripRight` drops is whitespace. */
  lemma TrailSpace(s: string)
    ensures |StripRight(s)| <= |s|
    ensures s == StripRight(s) + s[|StripRight(s)|..] && AllSpace(s[|StripRight(s)|..])
  {
    StripRightPrefix(s);
  }

  predicate AllSpace(s: string) {
    forall i :: 0 <= i < |s| ==> IsSpace(s[i])
  }

  lemma {:induction false} StripLeftSuffix(s: string)
    ensures |StripLeft(s)| <= |s| && StripLeft(s) == s[|s| - |StripLeft(s)|..]
    ensures forall k :: 0 <= k < |s| - |StripLeft(s)| ==> IsSpace(s[k])
  {
    if s != [] && IsSpace(s[0]) {
      StripLeftSuffix(s[1..]);
    }
  }

  lemma {:induction false} StripRightPrefix(s: string)
    ensures |StripRight(s)| <= |s| && StripRight(s) == s[..|StripRight(s)|]
    ensures forall k :: |StripRight(s)| <= k < |s| ==> IsSpace(s[k])
  {
    if s != [] && IsSpace(s[|s| - 1]) {
      StripRightPrefix(s[..|s| - 1]);
    }
  }

  predicate IsWord(w: string) {
    w != [] && forall i :: 0 <= i < |w| ==> !IsSpace(w[i])
  }

  /** The run of non-space characters `s` starts with. */
  function LeadWord(s: string): (w: string)
    ensures |w| <= |s| && w == s[..|w|]
    ensures forall i :: 0 <= i < |w| ==> !IsSpace(w[i])
    ensures |w| < |s| ==> IsSpace(s[|w|])
  {
    if s == [] || IsSpace(s[0]) then [] else [s[0]] + LeadWord(s[1..])
  }

  /** `str.split()` with no separator: the maximal runs of non-space characters. */
  function Words(s: string): (ws: seq<string>)
    ensures forall w :: w in ws ==> IsWord(w)
    decreases |s|
  {
    if s == [] then []
    else if IsSpace(s[0]) then Words(s[1..])
    else
      var w := LeadWord(s);
      [w] + Words(s[|w|..])
  }

  /** `" ".join(ws)` */
  function Join(ws: seq<string>): string {
    if ws == [] then []
    else if |ws| == 1 then ws[0]
    else ws[0] + " " + Join(ws[1..])
  }

  /** `" ".join(text.split())` */
  function Collapse(s: string): string {
    Join(Words(s))
  }

  lemma {:induction false} LeadWordBeforeSpace(a: string, c: char, b: string)
    requires IsSpace(c)
    ensures LeadWord(a + [c] + b) == LeadWord(a)
  {
    if a != [] && !IsSpace(a[0]) {
      assert (a + [c] + b)[1..] == a[1..] + [c] + b;
      LeadWordBeforeSpace(a[1..], c, b);
    }
  }

  /** A whitespace character splits the words of a text into those before it and those after it. */
  lemma {:induction false} WordsSplitAt(a: string, c: char, b: string)
    requires IsSpace(c)
    ensures Words(a + [c] + b) == Words(a) + Words(b)
    decreases |a|
  {
    var s := a + [c] + b;
    if a == [] {
      assert s[1..] == b;
    } else if IsSpace(a[0]) {
      assert s[1..] == a[1..] + [c] + b;
      WordsSplitAt(a[1..], c, b);
    } else {
      LeadWordBeforeSpace(a, c, b);
      var w := LeadWord(a);
      assert s[|w|..] == a[|w|..] + [c] + b;
      WordsSplitAt(a[|w|..], c, b);
    }
  }

  lemma WordsOfWord(w: string)
    requires IsWord(w)
    ensures Words(w) == [w]
  {
    assert LeadWord(w) == w by { LeadWordOfWord(w); }
    assert w[|w|..] == [];
  }

  lemma {:induction false} LeadWordOfWord(w: string)
    requires forall i :: 0 <= i < |w| ==> !IsSpace(w[i])
    ensures LeadWord(w) == w
  {
    if w != [] {
      LeadWordOfWord(w[1..]);
    }
  }

  /** Splitting a join of words gives the words back. */
  lemma {:induction false} WordsJoin(ws: seq<string>)
    requires forall w :: w in ws ==> IsWord(w)
    ensures Words(Join(ws)) == ws
  {
    if |ws| == 1 {
      WordsOfWord(ws[0]);
    } else if |ws| > 1 {
      WordsJoin(ws[1..]);
      WordsSplitAt(ws[0], ' ', Join(ws[1..]));
      WordsOfWord(ws[0]);
      assert [ws[0]] + ws[1..] == ws;
    }
  }

  /** Collapsing twice is collapsing once. */
  lemma CollapseIdempotent(s: string)
    ensures Collapse(Collapse(s)) == Collapse(s)
  {
    WordsJoin(Words(s));
  }

  lemma StripKeepsWords(s: string)
    ensures Words(Strip(s)) == Words(s)
  {
    StripLeftKeepsWords(s);
    StripRightKeepsWords(StripLeft(s));
  }

  lemma {:induction false} StripLeftKeepsWords(s: string)
    ensures Words(StripLeft(s)) == Words(s)
  {
    if s != [] && IsSpace(s[0]) {
      StripLeftKeepsWords(s[1..]);
    }
  }

  lemma {:induction false} StripRightKeepsWords(s: string)
    ensures Words(StripRight(s)) == Words(s)
  {
    if s != [] && IsSpace(s[|s| - 1]) {
      var t := s[..|s| - 1];
      StripRightKeepsWords(t);
      WordsSplitAt(t, s[|s| - 1], []);
      assert t + [s[|s| - 1]] + [] == s;
      assert Words([]) == [];
    }
  }

  // ---------------------------------------------------------------------
  // What collapsing keeps and what it leaves out
  // ---------------------------------------------------------------------

  /** Single spaces between non-empty runs of non-space characters, nothing at either end. */
  predicate Collapsed(r: string) {
    && (forall i :: 0 <= i < |r| && IsSpace(r[i]) ==> r[i] == ' ')
    && (r != [] ==> (r[0] != ' ' && r[|r| - 1] != ' '))
    && (forall i :: 0 <= i < |r| - 1 ==> !(r[i] == ' ' && r[i + 1] == ' '))
  }

  lemma {:induction false} JoinCollapsed(ws: seq<string>)
    requires forall w :: w in ws ==> IsWord(w)
    ensures Collapsed(Join(ws))
    ensures ws != [] ==> Join(ws) != []
  {
    if |ws| == 1 {
      assert ws[0] in ws;
    } else if |ws| > 1 {
      var w, t := ws[0], Join(ws[1..]);
      assert w in ws;
      JoinCollapsed(ws[1..]);
      var r := w + " " + t;
      assert r == Join(ws);
      forall i | 0 <= i < |r| && IsSpace(r[i]) ensures r[i] == ' ' {
        if i > |w| {
          assert r[i] == t[i - |w| - 1];
        }
      }
      forall i | 0 <= i < |r| - 1 ensures !(r[i] == ' ' && r[i + 1] == ' ') {
        if i > |w| {
          assert r[i] == t[i - |w| - 1] && r[i + 1] == t[i - |w|];
        } else if i == |w| {
          assert r[i + 1] == t[0];
        }
      }
      assert r[|r| - 1] == t[|t| - 1];
    }
  }

  /** The characters of `s` that are not whitespace, in order. */
  function NonSpace(s: string): string {
    if s == [] then [] else (if IsSpace(s[0]) then [] else [s[0]]) + NonSpace(s[1..])
  }

  function Concat(ws: seq<string>): string {
    if ws == [] then [] else ws[0] + Concat(ws[1..])
  }

  lemma {:induction false} NonSpaceConcat(a: string, b: string)
    ensures NonSpace(a + b) == NonSpace(a) + NonSpace(b)
  {
    if a != [] {
      assert (a + b)[0] == a[0] && (a + b)[1..] == a[1..] + b;
      NonSpaceConcat(a[1..], b);
      var h := if IsSpace(a[0]) then [] else [a[0]];
      calc {
        NonSpace(a + b);
        h + NonSpace(a[1..] + b);
        h + (NonSpace(a[1..]) + NonSpace(b));
        (h + NonSpace(a[1..])) + NonSpace(b);
      }
    } else {
      assert a + b == b;
    }
  }

  lemma {:induction false} NonSpaceOfRun(w: string)
    requires forall i :: 0 <= i < |w| ==> !IsSpace(w[i])
    ensures NonSpace(w) == w
  {
    if w != [] {
      NonSpaceOfRun(w[1..]);
    }
  }

  /** Splitting loses only whitespace: the words hold every other character of the text, in order. */
  lemma {:induction false} WordsKeepContent(s: string)
    ensures Concat(Words(s)) == NonSpace(s)
    decreases |s|
  {
    if s != [] {
      if IsSpace(s[0]) {
        WordsKeepContent(s[1..]);
      } else {
        var w := LeadWord(s);
        assert s == w + s[|w|..];
        NonSpaceConcat(w, s[|w|..]);
        NonSpaceOfRun(w);
        WordsKeepContent(s[|w|..]);
      }
    }
  }

  lemma {:induction false} JoinChars(ws: seq<string>, c: char)
    requires c in Join(ws) && c != ' '
    ensures c in Concat(ws)
  {
    if |ws| == 1 {
      assert Concat(ws) == ws[0] + [];
    } else {
      var t := Join(ws[1..]);
      if c in ws[0] {
      } else {
        assert c in t;
        JoinChars(ws[1..], c);
      }
    }
  }

  lemma {:induction false} NonSpaceChars(s: string, c: char)
    requires c in NonSpace(s)
    ensures c in s && !IsSpace(c)
  {
    if !(s[0] == c && !IsSpace(s[0])) {
      NonSpaceChars(s[1..], c);
    }
  }

  /** Collapsing keeps the shape above and introduces no character other than the space. */
  lemma CollapseSpec(s: string)
    ensures Collapsed(Collapse(s))
    ensures forall c :: c in Collapse(s) && c != ' ' ==> c in s && !IsSpace(c)
    ensures NonSpace(Collapse(s)) == NonSpace(s)
  {
    JoinCollapsed(Words(s));
    WordsKeepContent(s);
    forall c | c in Collapse(s) && c != ' ' ensures c in s && !IsSpace(c) {
      JoinChars(Words(s), c);
      NonSpaceChars(s, c);
    }
    CollapseKeepsContent(Words(s));
  }

  lemma {:induction false} CollapseKeepsContent(ws: seq<string>)
    requires forall w :: w in ws ==> IsWord(w)
    ensures NonSpace(Join(ws)) == Concat(ws)
  {
    if |ws| == 1 {
      assert ws[0] in ws;
      NonSpaceOfRun(ws[0]);
      assert Concat(ws) == ws[0] + [];
    } else if |ws| > 1 {
      assert ws[0] in ws;
      CollapseKeepsContent(ws[1..]);
      NonSpaceConcat(ws[0] + " ", Join(ws[1..]));
      NonSpaceConcat(ws[0], " ");
      NonSpaceOfRun(ws[0]);
      assert NonSpace(" ") == [];
    }
  }

  // ---------------------------------------------------------------------
  // normalize_answer_text and is_correct_answer
  // ---------------------------------------------------------------------

  /** Everything after NFKC normalisation. */
  function Canon(s: string, fold: char -> string): string {
    Collapse(PreCollapse(s, fold))
  }

  /** `normalize_answer_text` */
  function Normalize(s: string, nfkc: string -> string, fold: char -> string): string {
    Canon(nfkc(Strip(s)), fold)
  }

  /** Case folding brings back none of the characters the table removed. */
  ghost predicate FoldKeepsClean(fold: char -> string) {
    forall c, d :: !IsVariant(c) && d in fold(c) ==> !IsVariant(d)
  }

  /**
   * A normalised text has no punctuation, no whitespace other than single
   * spaces between words, nothing at either end, and, when case folding
   * keeps them out, none of the letter forms or marks the table removes.
   */
  lemma NormalizeSpec(s: string, nfkc: string -> string, fold: char -> string)
    ensures Collapsed(Normalize(s, nfkc, fold))
    ensures forall c :: c in Normalize(s, nfkc, fold) ==> !IsPunct(c)
    ensures FoldKeepsClean(fold) ==> forall c :: c in Normalize(s, nfkc, fold) ==> !IsVariant(c)
  {
    var t := Translate(nfkc(Strip(s)));
    var f := FlatMap(fold, t);
    var p := ReplacePunct(f);
    CollapseSpec(p);
    forall c | c in Normalize(s, nfkc, fold) ensures !IsPunct(c) {
      if c != ' ' {
        var i :| 0 <= i < |p| && p[i] == c;
      }
    }
    if FoldKeepsClean(fold) {
      TranslateClean(nfkc(Strip(s)));
      forall c | c in Normalize(s, nfkc, fold) ensures !IsVariant(c) {
        if c != ' ' {
          var i :| 0 <= i < |p| && p[i] == c;
          assert c in f;
          FlatMapChars(fold, t, c);
        }
      }
    }
  }

  /** The stages before collapsing whitespace work character by character. */
  function PreCollapse(s: string, fold: char -> string): string {
    ReplacePunct(FlatMap(fold, Translate(s)))
  }

  lemma PreCollapseConcat(a: string, b: string, fold: char -> string)
    ensures PreCollapse(a + b, fold) == PreCollapse(a, fold) + PreCollapse(b, fold)
  {
    FlatMapConcat(MapChar, a, b);
    FlatMapConcat(fold, Translate(a), Translate(b));
    ReplacePunctConcat(FlatMap(fold, Translate(a)), FlatMap(fold, Translate(b)));
  }

  lemma PreCollapseSeparator(q: char, fold: char -> string)
    requires IsPunct(q) || q == ' '
    requires fold(q) == [q]
    ensures PreCollapse([q], fold) == [' ']
  {
    assert [q][1..] == [];
    assert !IsVariant(q);
    assert MapChar(q) == [q];
    assert FlatMap(MapChar, [q]) == MapChar(q) + FlatMap(MapChar, []);
    assert Translate([q]) == [q];
    assert FlatMap(fold, [q]) == [q];
  }

  /** Punctuation separates words as a space does. */
  lemma CanonPunctIsSpace(a: string, p: char, b: string, fold: char -> string)
    requires IsPunct(p) && fold(p) == [p] && fold(' ') == [' ']
    ensures Canon(a + [p] + b, fold) == Canon(a + [' '] + b, fold)
    ensures Canon(a + [p] + b, fold) == Join(Words(PreCollapse(a, fold)) + Words(PreCollapse(b, fold)))
  {
    var x, y := PreCollapse(a, fold), PreCollapse(b, fold);
    PreCollapseConcat(a + [p], b, fold);
    PreCollapseConcat(a, [p], fold);
    PreCollapseSeparator(p, fold);
    PreCollapseConcat(a + [' '], b, fold);
    PreCollapseConcat(a, [' '], fold);
    PreCollapseSeparator(' ', fold);
    assert PreCollapse(a + [p] + b, fold) == x + [' '] + y;
    assert PreCollapse(a + [' '] + b, fold) == x + [' '] + y;
    WordsSplitAt(x, ' ', y);
  }

  /** A character and what the table makes of it normalise alike. */
  lemma CanonAbsorbsTable(a: string, c: char, b: string, fold: char -> string)
    ensures Canon(a + [c] + b, fold) == Canon(a + MapChar(c) + b, fold)
  {
    FlatMapConcat(MapChar, a + [c], b);
    FlatMapConcat(MapChar, a, [c]);
    assert Translate([c]) == MapChar(c) by { assert [c][1..] == []; }
    FlatMapConcat(MapChar, a + MapChar(c), b);
    FlatMapConcat(MapChar, a, MapChar(c));
    TranslateIdempotent([c]);
  }

  /**
   * `is_correct_answer`: an empty normalised answer never matches; any
   * other matches exactly when it equals a stored answer normalised the
   * same way (the Persian text or the English one).
   */
  function IsCorrectAnswer(user: string, fa: string, en: string, nfkc: string -> string, fold: char -> string): (r: bool)
    ensures r <==> Normalize(user, nfkc, fold) != []
                   && (Normalize(user, nfkc, fold) == Normalize(fa, nfkc, fold)
                       || Normalize(user, nfkc, fold) == Normalize(en, nfkc, fold))
  {
    var userNorm := Normalize(user, nfkc, fold);
    var faNorm := Normalize(fa, nfkc, fold);
    var enNorm := Normalize(en, nfkc, fold);
    if userNorm == [] then false
    else if faNorm != [] && userNorm == faNorm then true
    else if enNorm != [] && userNorm == enNorm then true
    else false
  }
}
