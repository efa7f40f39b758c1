/**
 * Two small text formats: embed colours written as hex (`hex_to_rgb`)
 * and the question-bank file, one `question | answer | category |
 * difficulty` per line (the line parser of `load_txt_questions`).
 */
module Formats {
  import opened Common
  import opened Matching

  datatype Result<T> = Ok(value: T) | Err(message: string)

  // ---------------------------------------------------------------------
  // hex_to_rgb
  // ---------------------------------------------------------------------

  /** How many `#`s `s` starts with: a run of them, not followed by another. */
  function LeadingHashes(s: string): (k: nat)
    ensures k <= |s|
    ensures forall i :: 0 <= i < k ==> s[i] == '#'
    ensures k == |s| || s[k] != '#'
  {
    if s != [] && s[0] == '#' then 1 + LeadingHashes(s[1..]) else 0
  }

  /** `s.lstrip("#")` */
  function LStripHash(s: string): string {
    s[LeadingHashes(s)..]
  }

  function HexDigit(c: char): Option<int> {
    if '0' <= c <= '9' then Some(c as int - '0' as int)
    else if 'a' <= c <= 'f' then Some(c as int - 'a' as int + 10)
    else if 'A' <= c <= 'F' then Some(c as int - 'A' as int + 10)
    else None
  }

  /**
   * `int(p, 16)` for a two-character `p`: two hex digits, or one digit
   * with whitespace on either side, or a sign followed by a digit.
   * Anything else raises ValueError, given here as `None`.
   */
  function ParseHexPair(p: string): (r: Option<int>)
    requires |p| == 2
    ensures r.Some? ==> -15 <= r.value <= 255
    ensures HexDigit(p[0]).Some? && HexDigit(p[1]).Some? ==>
      r == Some(16 * HexDigit(p[0]).value + HexDigit(p[1]).value)
  {
    var a, b := HexDigit(p[0]), HexDigit(p[1]);
    if a.Some? && b.Some? then Some(16 * a.value + b.value)
    else if a.Some? && IsSpace(p[1]) then a
    else if IsSpace(p[0]) && b.Some? then b
    else if p[0] == '+' && b.Some? then b
    else if p[0] == '-' && b.Some? then Some(-b.value)
    else None
  }

  /** `hex_to_rgb`: after the leading `#`s are gone, exactly six characters in three pairs. */
  function HexToRgb(s: string): (r: Result<(int, int, int)>)
    ensures r.Ok? ==> |LStripHash(s)| == 6
    ensures |LStripHash(s)| != 6 ==> r.Err?
  {
    var h := LStripHash(s);
    if |h| != 6 then Err("invalid colour code")
    else
      var r, g, b := ParseHexPair(h[0..2]), ParseHexPair(h[2..4]), ParseHexPair(h[4..6]);
      if r.Some? && g.Some? && b.Some? then Ok((r.value, g.value, b.value)) else Err("invalid literal for int() with base 16")
  }

  const HexDigits: string := "0123456789abcdef"

  /** A channel written as two lower-case hex digits. */
  function Hex2(n: nat): (s: string)
    requires n < 256
    ensures |s| == 2
  {
    [HexDigits[n / 16], HexDigits[n % 16]]
  }

  lemma Hex2Digits(n: nat)
    requires n < 256
    ensures HexDigit(Hex2(n)[0]) == Some(n / 16) && HexDigit(Hex2(n)[1]) == Some(n % 16)
  {
    forall d | 0 <= d < 16 ensures HexDigit(HexDigits[d]) == Some(d) {
      assert HexDigits[d] == "0123456789abcdef"[d];
    }
  }

  /** Two digits written by `Hex2` read back as the channel. */
  lemma Hex2Parses(n: nat)
    requires n < 256
    ensures ParseHexPair(Hex2(n)) == Some(n)
  {
    Hex2Digits(n);
    assert 16 * (n / 16) + n % 16 == n;
  }

  lemma Hex2NoHash(n: nat)
    requires n < 256
    ensures Hex2(n)[0] != '#'
  {
    Hex2Digits(n);
  }

  /** Six characters in three well-formed pairs, with no `#` in front. */
  lemma HexToRgbBody(body: string, r: nat, g: nat, b: nat)
    requires |body| == 6 && body[0] != '#'
    requires ParseHexPair(body[0..2]) == Some(r) && ParseHexPair(body[2..4]) == Some(g) && ParseHexPair(body[4..6]) == Some(b)
    ensures HexToRgb(body) == Ok((r, g, b))
  {
  }

  /** Reading back a colour written as `#rrggbb`, with any number of `#`s in front. */
  lemma HexToRgbRoundTrip(hashes: nat, r: nat, g: nat, b: nat)
    requires r < 256 && g < 256 && b < 256
    ensures HexToRgb(seq(hashes, _ => '#') + (Hex2(r) + Hex2(g) + Hex2(b))) == Ok((r, g, b))
  {
    var body := Hex2(r) + Hex2(g) + Hex2(b);
    assert body[0] == Hex2(r)[0];
    Hex2NoHash(r);
    assert body[0..2] == Hex2(r) && body[2..4] == Hex2(g) && body[4..6] == Hex2(b);
    Hex2Parses(r);
    Hex2Parses(g);
    Hex2Parses(b);
    HexToRgbBody(body, r, g, b);
    LStripHashPrefix(seq(hashes, _ => '#') + body, hashes);
  }

  /** `lstrip("#")` removes a run of `k` hashes that is not followed by another. */
  lemma {:induction false} LStripHashPrefix(s: string, k: nat)
    requires k <= |s| && (k == |s| || s[k] != '#')
    requires forall i :: 0 <= i < k ==> s[i] == '#'
    ensures LStripHash(s) == s[k..]
  {
    if k > 0 {
      assert s[0] == '#';
      LStripHashPrefix(s[1..], k - 1);
      assert s[1..][k - 1..] == s[k..];
    }
  }

  // ---------------------------------------------------------------------
  // The question bank file
  // ---------------------------------------------------------------------

  datatype TxtQuestion = TxtQuestion(question: string, answer: string, category: string, difficulty: string)

  /** `s.split(sep)`: the pieces between separators, empty ones included. */
  function SplitOn(s: string, sep: char): (parts: seq<string>)
    ensures |parts| >= 1
    ensures forall k :: 0 <= k < |parts| ==> sep !in parts[k]
    ensures sep !in s ==> parts == [s]
  {
    if sep !in s then [s]
    else
      var i := IndexOf(s, sep);
      [s[..i]] + SplitOn(s[i + 1..], sep)
  }

  function IndexOf(s: string, c: char): (i: nat)
    requires c in s
    ensures i < |s| && s[i] == c && c !in s[..i]
  {
    if s[0] == c then 0 else 1 + IndexOf(s[1..], c)
  }

  /** `sep.join(parts)` */
  function JoinWith(parts: seq<string>, sep: char): string
    requires |parts| >= 1
  {
    if |parts| == 1 then parts[0] else parts[0] + [sep] + JoinWith(parts[1..], sep)
  }

  /** Splitting and joining again gives the line back. */
  lemma {:induction false} SplitJoin(s: string, sep: char)
    ensures JoinWith(SplitOn(s, sep), sep) == s
    decreases |s|
  {
    if sep in s {
      var i := IndexOf(s, sep);
      SplitOnUnfold(s, sep);
      JoinCons(s[..i], SplitOn(s[i + 1..], sep), sep);
      SplitJoin(s[i + 1..], sep);
      SplitAround(s, i);
    }
  }

  lemma SplitAround(s: string, i: nat)
    requires i < |s|
    ensures s == s[..i] + [s[i]] + s[i + 1..]
  {
  }

  /** One step of `SplitOn` on a line that has a separator. */
  lemma SplitOnUnfold(s: string, sep: char)
    requires sep in s
    ensures SplitOn(s, sep) == [s[..IndexOf(s, sep)]] + SplitOn(s[IndexOf(s, sep) + 1..], sep)
  {
  }

  lemma JoinCons(head: string, tail: seq<string>, sep: char)
    requires |tail| >= 1
    ensures JoinWith([head] + tail, sep) == head + [sep] + JoinWith(tail, sep)
  {
    assert ([head] + tail)[1..] == tail;
  }

  /** Joining pieces without the separator and splitting again gives the pieces back. */
  lemma {:induction false} JoinSplit(parts: seq<string>, sep: char)
    requires |parts| >= 1 && forall k :: 0 <= k < |parts| ==> sep !in parts[k]
    ensures SplitOn(JoinWith(parts, sep), sep) == parts
  {
    if |parts| > 1 {
      SplitOnAt(parts[0], sep, JoinWith(parts[1..], sep));
      JoinSplit(parts[1..], sep);
      assert parts == [parts[0]] + parts[1..];
    }
  }

  /** Splitting at the first separator, when it follows a piece without one. */
  lemma SplitOnAt(a: string, sep: char, b: string)
    requires sep !in a
    ensures SplitOn(a + [sep] + b, sep) == [a] + SplitOn(b, sep)
  {
    var s := a + [sep] + b;
    IndexOfFirst(a, sep, b);
    assert s[|a| + 1..] == b;
    assert s[..|a|] == a;
  }

  lemma {:induction false} IndexOfFirst(a: string, c: char, b: string)
    requires c !in a
    ensures c in a + [c] + b && IndexOf(a + [c] + b, c) == |a|
  {
    var s := a + [c] + b;
    assert s[|a|] == c;
    if a != [] {
      assert s[0] == a[0] && s[1..] == a[1..] + [c] + b;
      IndexOfFirst(a[1..], c, b);
    }
  }

  /** A text `strip` leaves alone. */
  predicate Stripped(s: string) {
    s == [] || (!IsSpace(s[0]) && !IsSpace(s[|s| - 1]))
  }

  lemma StripStripped(s: string)
    requires Stripped(s)
    ensures Strip(s) == s
  {
  }

  /** `[p.strip() for p in parts]` */
  function StripEach(parts: seq<string>): (r: seq<string>)
    ensures |r| == |parts|
    ensures forall i :: 0 <= i < |r| ==> r[i] == Strip(parts[i])
  {
    if parts == [] then [] else [Strip(parts[0])] + StripEach(parts[1..])
  }

  /** A line with at least two stripped pieces becomes a question. */
  function FromParts(parts: seq<string>): Option<TxtQuestion> {
    if |parts| < 2 then None
    else
      Some(TxtQuestion(parts[0], parts[1],
                       if |parts| > 2 then parts[2] else "",
                       if |parts| > 3 then parts[3] else ""))
  }

  lemma SplitOnSeveral(s: string, sep: char)
    ensures |SplitOn(s, sep)| >= 2 <==> sep in s
  {
  }

  /**
   * One line of the bank: blank lines and `#` comments are skipped, and
   * so is a line with no `|`; category and difficulty may be missing.
   */
  function ParseLine(line: string): (r: Option<TxtQuestion>)
    ensures r.None? <==> (var t := Strip(line); t == [] || t[0] == '#' || '|' !in t)
    ensures r.Some? ==>
      && Stripped(r.value.question) && Stripped(r.value.answer)
      && Stripped(r.value.category) && Stripped(r.value.difficulty)
  {
    var t := Strip(line);
    if t == [] || t[0] == '#' then None
    else
      SplitOnSeveral(t, '|');
      FromParts(StripEach(SplitOn(t, '|')))
  }

  lemma {:induction false} StripEachStripped(parts: seq<string>)
    requires forall p :: p in parts ==> Stripped(p)
    ensures StripEach(parts) == parts
  {
    if parts != [] {
      assert parts[0] in parts;
      StripStripped(parts[0]);
      StripEachStripped(parts[1..]);
    }
  }

  /** The fields joined by `|`, as a line of the bank file. */
  function Line(q: TxtQuestion): string {
    q.question + "|" + q.answer + "|" + q.category + "|" + q.difficulty
  }

  /** The first and the last character of pieces joined by `sep`. */
  lemma {:induction false} JoinEnds(parts: seq<string>, sep: char)
    requires |parts| >= 2
    ensures var line := JoinWith(parts, sep); var last := parts[|parts| - 1];
      && line != []
      && line[0] == (if parts[0] != [] then parts[0][0] else sep)
      && line[|line| - 1] == (if last != [] then last[|last| - 1] else sep)
  {
    var line := JoinWith(parts, sep);
    var rest := JoinWith(parts[1..], sep);
    assert line == parts[0] + [sep] + rest;
    if |parts| == 2 {
      assert rest == parts[1];
    } else {
      JoinEnds(parts[1..], sep);
    }
  }

  /**
   * A line of two or more `|`-separated fields, each already stripped and
   * none holding `|`, reads back as its first four fields, a missing
   * category or difficulty read as "".
   */
  lemma ParseFieldsRoundTrip(fields: seq<string>)
    requires |fields| >= 2 && forall k :: 0 <= k < |fields| ==> Stripped(fields[k]) && '|' !in fields[k]
    requires fields[0] == [] || fields[0][0] != '#'
    ensures ParseLine(JoinWith(fields, '|')) ==
      Some(TxtQuestion(fields[0], fields[1], if |fields| > 2 then fields[2] else "", if |fields| > 3 then fields[3] else ""))
  {
    var line := JoinWith(fields, '|');
    JoinEnds(fields, '|');
    assert Stripped(line) by {
      assert fields[0] == [] || !IsSpace(fields[0][0]);
      assert fields[|fields| - 1] == [] || !IsSpace(fields[|fields| - 1][|fields[|fields| - 1]| - 1]);
    }
    StripStripped(line);
    JoinSplit(fields, '|');
    assert forall p :: p in fields ==> Stripped(p);
    StripEachStripped(fields);
    ParseLineFields(line, fields);
  }

  /** A question written as `question|answer|category|difficulty` reads back as itself. */
  lemma ParseLineRoundTrip(q: TxtQuestion)
    requires Stripped(q.question) && Stripped(q.answer) && Stripped(q.category) && Stripped(q.difficulty)
    requires '|' !in q.question && '|' !in q.answer && '|' !in q.category && '|' !in q.difficulty
    requires q.question == [] || q.question[0] != '#'
    ensures ParseLine(Line(q)) == Some(q)
  {
    var fields := [q.question, q.answer, q.category, q.difficulty];
    assert fields[1..][1..][1..] == [q.difficulty];
    assert JoinWith(fields[1..][1..], '|') == q.category + "|" + q.difficulty;
    assert JoinWith(fields[1..], '|') == q.answer + "|" + q.category + "|" + q.difficulty;
    assert Line(q) == JoinWith(fields, '|');
    ParseFieldsRoundTrip(fields);
  }

  /** A stripped line that is not a comment reads as its stripped pieces. */
  lemma ParseLineFields(line: string, fields: seq<string>)
    requires Strip(line) == line && line != [] && line[0] != '#'
    requires SplitOn(line, '|') == fields && StripEach(fields) == fields
    ensures ParseLine(line) == FromParts(fields)
  {
  }

  /** What each line of a bank file reads as. */
  function ReadLines(lines: seq<string>): seq<Option<TxtQuestion>> {
    seq(|lines|, i requires 0 <= i < |lines| => ParseLine(lines[i]))
  }

  /** The questions the lines of a bank file hold, in file order. */
  function Parsed(lines: seq<string>): seq<TxtQuestion> {
    Present(ReadLines(lines))
  }

  /** A question is in the bank exactly when some line of the file reads as it. */
  lemma ParsedMembers(lines: seq<string>, q: TxtQuestion)
    ensures q in Parsed(lines) <==> exists i :: 0 <= i < |lines| && ParseLine(lines[i]) == Some(q)
    ensures |Parsed(lines)| <= |lines|
  {
    var opts := ReadLines(lines);
    assert |opts| == |lines| && forall i :: 0 <= i < |lines| ==> opts[i] == ParseLine(lines[i]);
    PresentMembers(opts, q);
    if Some(q) in opts {
      var i :| 0 <= i < |opts| && opts[i] == Some(q);
      assert ParseLine(lines[i]) == Some(q);
    }
    if exists i :: 0 <= i < |lines| && ParseLine(lines[i]) == Some(q) {
      var i :| 0 <= i < |lines| && ParseLine(lines[i]) == Some(q);
      assert opts[i] == Some(q);
    }
  }

  /** `load_txt_questions` over the lines of the file. */
  method LoadTxtQuestions(lines: seq<string>) returns (bank: seq<TxtQuestion>)
    ensures bank == Parsed(lines)
    ensures forall q :: q in bank <==> exists i :: 0 <= i < |lines| && ParseLine(lines[i]) == Some(q)
  {
    bank := [];
    var i := 0;
    while i < |lines|
      invariant 0 <= i <= |lines|
      invariant bank == Present(ReadLines(lines)[..i])
    {
      ghost var opts := ReadLines(lines);
      assert opts[..i + 1][..i] == opts[..i];
      var parsed := ParseLine(lines[i]);
      if parsed.Some? {
        bank := bank + [parsed.value];
      }
      i := i + 1;
    }
    assert ReadLines(lines)[..i] == ReadLines(lines);
    forall q ensures q in bank <==> exists k :: 0 <= k < |lines| && ParseLine(lines[k]) == Some(q) {
      ParsedMembers(lines, q);
    }
  }
}
