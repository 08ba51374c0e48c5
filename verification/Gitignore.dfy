/** walker/gitignore.go: ignore lines compiled to regular expressions, and what these mean segment
    by segment, in the terms of gitignore(5). An ignore line is a byte
    string, one character below 256 for each byte; a path is a string of characters. */
module Gitignore {
  import opened Regex
  import opened Seqs
  import opened Utf8
  import opened Wrappers
  import opened Paths

  // ---------- Reference meaning ----------

  /** One segment against a `**`-free glob: `*`, `?` and literal characters. */
  ghost predicate SegMatch(p: string, s: string)
  {
    if p == "" then s == ""
    else if p[0] == '*' then exists j | 0 <= j <= |s| :: SegMatch(p[1..], s[j..])
    else s != "" && (p[0] == '?' || p[0] == s[0]) && SegMatch(p[1..], s[1..])
  }

  /** Go's `.` never matches a newline, so neither does a `**` of the compiled pattern. */
  predicate NoNewline(ss: Path) {
    forall i | 0 <= i < |ss| :: '\n' !in ss[i]
  }

  /** Segment-wise matching: a `**` before other segments stands for zero or more segments, a
      trailing one for one or more; any other segment is a glob for exactly one. */
  ghost predicate MatchSegs(ps: seq<string>, ss: Path)
    decreases |ps|
  {
    if ps == [] then ss == []
    else if ps[0] == "**" then
      if |ps| == 1 then ss != [] && NoNewline(ss)
      else exists j | 0 <= j <= |ss| :: NoNewline(ss[..j]) && MatchSegs(ps[1..], ss[j..])
    else ss != [] && SegMatch(ps[0], ss[0]) && MatchSegs(ps[1..], ss[1..])
  }

  /** Two adjacent stars. */
  predicate HasStars(u: string) {
    exists k | 0 <= k < |u| - 1 :: u[k] == '*' && u[k + 1] == '*'
  }

  /** Every segment is `**` itself or free of it. */
  predicate WholeStars(ps: seq<string>) {
    forall i | 0 <= i < |ps| :: ps[i] == "**" || !HasStars(ps[i])
  }

  /** No bracket expression: a `[` is never followed by a `]`. */
  predicate NoClass(p: string) {
    forall i, j | 0 <= i < j < |p| :: p[i] == '[' ==> p[j] != ']'
  }

  lemma {:induction false} PlainGlob(b: string, s: string)
    requires forall i | 0 <= i < |b| :: b[i] !in ['*', '?']
    ensures SegMatch(b, s) <==> s == b
  {
    if b != "" && s != "" {
      PlainGlob(b[1..], s[1..]);
      assert b == [b[0]] + b[1..] && s == [s[0]] + s[1..];
    }
  }

  // ---------- The compiler ----------

  /** regexp.Compile: None for a text it refuses, otherwise which paths match. */
  type Engine = string -> Option<string -> bool>

  predicate Accepts(e: Engine, text: string, w: string) {
    e(text).Some? && e(text).value(w)
  }

  /** What the compiler makes of a pattern without bracket expressions, as UTF-8. */
  function Emitted(pattern: string, anchored: bool): string {
    Encode(Anchored(AllPieces(pattern, anchored)))
  }

  /** Such a text, if the engine compiles it, accepts what the expressions of this model accept; of
      all other texts nothing is said. */
  ghost predicate EngineOk(e: Engine) {
    forall pattern, anchored, w | NoClass(pattern) && e(Emitted(pattern, anchored)).Some? ::
      Accepts(e, Emitted(pattern, anchored), w) <==> MatchString(Anchored(AllPieces(pattern, anchored)), w)
  }

  /** Such engines exist, and one compiles all these texts. */
  lemma {:induction false} SomeEngine() returns (e: Engine)
    ensures EngineOk(e)
    ensures forall pattern, anchored :: e(Emitted(pattern, anchored)).Some?
  {
    e := bytes => Model(bytes);
    forall pattern, anchored ensures e(Emitted(pattern, anchored)).Some? {
      ModelReads(Anchored(AllPieces(pattern, anchored)));
    }
    forall pattern, anchored, w
      ensures Accepts(e, Emitted(pattern, anchored), w) <==> MatchString(Anchored(AllPieces(pattern, anchored)), w)
    {
      ModelReads(Anchored(AllPieces(pattern, anchored)));
    }
  }

  function Model(bytes: string): Option<string -> bool> {
    match Decode(bytes)
    case None => None
    case Some(text) => Some(w => MatchString(text, w))
  }

  lemma {:induction false} ModelReads(text: string)
    ensures Model(Encode(text)).Some? && forall w :: Model(Encode(text)).value(w) <==> MatchString(text, w)
  {
    DecodeEncode(text);
  }

  const ANY: Regex := Star(AnyChar)
  const DIRS: Regex := Opt([Plus(AnyChar), Lit('/')])       // (.+/)?
  const PREFIX: Regex := Opt([Star(AnyChar), Lit('/')])     // (.*/)?

  /** What the loop emits for the rest q of a pattern, brackets apart: one turn's pieces, then
      the others'. */
  function Pieces(q: string): seq<Regex> {
    if q == "" then [] else Step(q) + Pieces(q[Width(q)..])
  }

  /** One turn of the switch. */
  function Step(q: string): seq<Regex>
    requires q != ""
  {
    if "/**/" <= q then [Lit('/'), DIRS]
    else if "**/" <= q then [DIRS]
    else if q == "/**" then [Lit('/'), ANY]
    else if "**" <= q then [ANY]
    else [OneCharPiece(q[0])]
  }

  function OneCharPiece(c: char): Regex {
    if c == '*' then Star(NotSlash) else if c == '?' then NotSlash else Lit(c)
  }

  /** How many characters that turn consumes. */
  function Width(q: string): (n: nat)
    requires q != ""
    ensures 0 < n <= |q|
  {
    if "/**/" <= q then 4 else if "**/" <= q || q == "/**" then 3 else if "**" <= q then 2 else 1
  }

  lemma {:induction false} PiecesSimple(q: string)
    ensures forall x | x in Pieces(q) :: Simple(x)
  {
    if q != "" { PiecesSimple(q[Width(q)..]); }
  }

  function AllPieces(pattern: string, anchored: bool): seq<Regex> {
    (if anchored then [] else [PREFIX]) + Pieces(pattern)
  }

  /** What an (anchored) pattern means: unanchored, it may start at any level. */
  function Segments(pattern: string, anchored: bool): seq<string> {
    (if anchored then [] else ["**"]) + Split(pattern)
  }

  /** Where a bracket expression that starts here ends: behind the first `]`, or 0 if none starts. */
  function ClassEnd(q: string): (n: nat)
    ensures n <= |q|
    ensures n > 0 ==> q[0] == '[' && q[n - 1] == ']' && ']' !in q[..n - 1]
    ensures n == 0 ==> q == "" || q[0] != '[' || ']' !in q
  {
    if q == "" || q[0] != '[' then 0
    else
      var n := IndexByte(q, ']');
      if n == |q| then 0 else n + 1
  }

  /** strings.IndexByte, with the length for an absent byte. */
  function IndexByte(s: string, c: char): (n: nat)
    ensures n <= |s| && c !in s[..n] && (n < |s| ==> s[n] == c)
  {
    if s == "" || s[0] == c then 0 else 1 + IndexByte(s[1..], c)
  }

  /** A bracket expression in the text: a leading `!` turns into `^`, the rest is copied. */
  function ClassText(b: string): string {
    if |b| > 2 && b[1] == '!' then "[^" + b[2..] else b
  }

  /** regexp.QuoteMeta(string(b)) for one byte: the byte is taken for a character of its own. */
  function QuoteByte(b: char): string {
    Encode(QuoteMeta(b))
  }

  /** What the loop appends for the rest q of a pattern. */
  function BodyText(q: string): string {
    if q == "" then ""
    else if ClassEnd(q) > 0 then ClassText(q[..ClassEnd(q)]) + BodyText(q[ClassEnd(q)..])
    else Encode(TextSeq(Step(q))) + BodyText(q[Width(q)..])
  }

  function HeadText(anchored: bool): string {
    if anchored then "" else "(.*/)?"
  }

  function RegexText(pattern: string, anchored: bool): string {
    "^" + HeadText(anchored) + BodyText(pattern) + "$"
  }

  /** gitignoreToRegex. Without bracket expressions its text prints exactly the intended pieces,
      and if double stars are whole segments, the compiled text accepts a path exactly when the
      segments match. */
  method GitignoreToRegex(pattern: string, anchored: bool) returns (text: string)
    ensures text == RegexText(pattern, anchored)
    ensures NoClass(pattern) ==> text == Emitted(pattern, anchored)
    ensures forall e, ss: Path |
              && NoClass(pattern) && WholeStars(Split(pattern)) && EngineOk(e) && e(text).Some?
              && Ok(ss) && ss != [] ::
                Accepts(e, text, Join(ss)) <==> MatchSegs(Segments(pattern, anchored), ss)
  {
    text := "^";
    if !anchored {
      text := text + "(.*/)?";
    }
    text := AppendBody(text, pattern, Rests(pattern));
    WholeBody(pattern, Rests(pattern));
    text := text + "$";
    assert text == RegexText(pattern, anchored);
    TextMeaning(pattern, anchored);
  }

  ghost function Rests(pattern: string): (rest: seq<string>)
    ensures IsRest(pattern, rest)
  {
    seq(|pattern| + 1, i requires 0 <= i <= |pattern| => BodyText(pattern[i..]))
  }

  /** What is still to be appended from each byte on. */
  ghost predicate IsRest(pattern: string, rest: seq<string>) {
    && |rest| == |pattern| + 1
    && forall i {:trigger BodyText(pattern[i..])} | 0 <= i <= |pattern| :: rest[i] == BodyText(pattern[i..])
  }

  lemma {:induction false} WholeBody(pattern: string, rest: seq<string>)
    requires IsRest(pattern, rest)
    ensures rest[0] == BodyText(pattern) && rest[|pattern|] == ""
  {
    assert pattern[0..] == pattern && pattern[|pattern|..] == "" && BodyText("") == "";
  }

  /** The loop. */
  method AppendBody(head: string, pattern: string, ghost rest: seq<string>) returns (text: string)
    requires IsRest(pattern, rest)
    ensures text == head + rest[0]
  {
    WholeBody(pattern, rest);
    text := head;
    var i := 0;
    while i < |pattern|
      invariant i <= |pattern| && text + rest[i] == head + rest[0]
    {
      var piece, width := Turn(pattern, i, rest);
      AppendPiece(text, head + rest[0], rest[i], piece, rest[i + width]);
      text := text + piece;
      i := i + width;
    }
  }

  lemma {:induction false} AppendPiece(text: string, whole: string, rest: string, piece: string, left: string)
    requires text + rest == whole && rest == piece + left
    ensures text + piece + left == whole
  {
    Assoc(text, piece, left);
  }

  /** One turn of that loop: the text to append and the number of bytes consumed. */
  method Turn(pattern: string, i: nat, ghost rest: seq<string>) returns (piece: string, width: nat)
    requires i < |pattern| && IsRest(pattern, rest)
    ensures 0 < width <= |pattern| - i
    ensures rest[i] == piece + rest[i + width]
  {
    piece, width := TurnPiece(pattern, i);
    assert rest[i] == BodyText(pattern[i..]) && rest[i + width] == BodyText(pattern[i + width..]);
  }

  method TurnPiece(pattern: string, i: nat) returns (piece: string, width: nat)
    requires i < |pattern|
    ensures 0 < width <= |pattern| - i
    ensures BodyText(pattern[i..]) == piece + BodyText(pattern[i + width..])
  {
    var n := |pattern|;
    ghost var q := pattern[i..];
    SliceTests(pattern, i);
    StepText(q);
    if i + 3 <= n - 1 && pattern[i..i + 4] == "/**/" {
      piece, width := "/(.+/)?", 4;
    } else if i + 2 <= n - 1 && pattern[i..i + 3] == "**/" {
      piece, width := "(.+/)?", 3;
    } else if i + 2 <= n - 1 && pattern[i..i + 3] == "/**" && i + 3 == n {
      piece, width := "/.*", 3;
    } else if i + 1 <= n - 1 && pattern[i] == '*' && pattern[i + 1] == '*' {
      piece, width := ".*", 2;
    } else if pattern[i] == '*' {
      piece, width := "[^/]*", 1;
    } else if pattern[i] == '?' {
      piece, width := "[^/]", 1;
    } else if pattern[i] == '[' {
      piece, width := Bracket(pattern, i);
    } else {
      piece, width := QuoteByte(pattern[i]), 1;
    }
    assert ClassEnd(q) == 0 ==> width == Width(q) && piece == Encode(TextSeq(Step(q)));
    assert q[width..] == pattern[i + width..];
  }

  /** The case of a `[`: up to the first `]` if there is one, otherwise a quoted character. */
  method Bracket(pattern: string, i: nat) returns (piece: string, width: nat)
    requires i < |pattern| && pattern[i] == '['
    ensures 0 < width <= |pattern| - i
    ensures var q := pattern[i..];
            if ClassEnd(q) > 0 then piece == ClassText(q[..ClassEnd(q)]) && width == ClassEnd(q)
            else piece == QuoteByte('[') && width == 1
  {
    var end := IndexByte(pattern[i..], ']');
    if end == |pattern| - i {
      piece, width := QuoteByte(pattern[i]), 1;
    } else {
      piece, width := pattern[i..i + end + 1], end + 1;
      assert piece == pattern[i..][..end + 1];
      if |piece| > 2 && piece[1] == '!' {
        piece := "[^" + piece[2..];
      }
    }
  }

  /** The text a turn without brackets appends. */
  lemma {:induction false} StepText(q: string)
    requires q != ""
    ensures Encode(TextSeq(Step(q))) ==
            if "/**/" <= q then "/(.+/)?"
            else if "**/" <= q then "(.+/)?"
            else if q == "/**" then "/.*"
            else if "**" <= q then ".*"
            else if q[0] == '*' then "[^/]*"
            else if q[0] == '?' then "[^/]"
            else QuoteByte(q[0])
  {
    if Width(q) > 1 {
      StarText(q);
    } else {
      CharText(q[0]);
    }
  }

  lemma {:induction false} StarText(q: string)
    requires q != "" && Width(q) > 1
    ensures Encode(TextSeq(Step(q))) ==
            if "/**/" <= q then "/(.+/)?"
            else if "**/" <= q then "(.+/)?"
            else if q == "/**" then "/.*"
            else ".*"
  {
    TextOne(DIRS);
    TextOfGroup(Plus(AnyChar));
    TextOne(ANY);
    EncodeAscii(TextSeq(Step(q)));
  }

  lemma {:induction false} CharText(c: char)
    ensures Encode(TextSeq([OneCharPiece(c)])) ==
            if c == '*' then "[^/]*" else if c == '?' then "[^/]" else QuoteByte(c)
  {
    TextOne(OneCharPiece(c));
    if c == '*' || c == '?' {
      EncodeAscii(TextSeq([OneCharPiece(c)]));
    }
  }

  lemma {:induction false} PrefixText()
    ensures TextSeq([PREFIX]) == "(.*/)?" && TextSeq([]) == ""
  {}

  /** The slice comparisons of the loop are prefix tests on the rest of the pattern. */
  lemma {:induction false} SliceTests(pattern: string, i: nat)
    requires i < |pattern|
    ensures var n, q := |pattern|, pattern[i..];
      && ("/**/" <= q <==> i + 3 <= n - 1 && pattern[i..i + 4] == "/**/")
      && ("**/" <= q <==> i + 2 <= n - 1 && pattern[i..i + 3] == "**/")
      && (q == "/**" <==> i + 2 <= n - 1 && pattern[i..i + 3] == "/**" && i + 3 == n)
      && ("**" <= q <==> i + 1 <= n - 1 && pattern[i] == '*' && pattern[i + 1] == '*')
  {}

  lemma {:induction false} TextOne(r: Regex)
    ensures TextSeq([r]) == Text(r)
    ensures TextSeq([Lit('/'), r]) == "/" + Text(r)
  {}

  lemma {:induction false} TextOfGroup(x: Regex)
    ensures Text(Opt([x, Lit('/')])) == "(" + (Text(x) + "/") + ")?"
  {
    TextOne(Lit('/'));
    assert [x, Lit('/')][1..] == [Lit('/')];
  }

  /** Without brackets the appended text prints the pieces. */
  lemma {:induction false} BodyPrints(q: string)
    requires NoClass(q)
    ensures BodyText(q) == Encode(TextSeq(Pieces(q)))
  {
    if q != "" {
      var rest := q[Width(q)..];
      NoClassEnd(q);
      assert NoClass(rest);
      BodyPrints(rest);
      TextSeqAppend(Step(q), Pieces(rest));
      EncodeAppend(TextSeq(Step(q)), TextSeq(Pieces(rest)));
    }
  }

  lemma {:induction false} NoClassEnd(q: string)
    requires NoClass(q)
    ensures ClassEnd(q) == 0
  {
  }

  lemma {:induction false} TextPrints(pattern: string, anchored: bool)
    requires NoClass(pattern)
    ensures RegexText(pattern, anchored) == Emitted(pattern, anchored)
  {
    BodyPrints(pattern);
    HeadPrints(Pieces(pattern), anchored);
    AnchoredPrints(HeadText(anchored), TextSeq(Pieces(pattern)), TextSeq(AllPieces(pattern, anchored)));
  }

  lemma {:induction false} HeadPrints(rs: seq<Regex>, anchored: bool)
    ensures TextSeq((if anchored then [] else [PREFIX]) + rs) == HeadText(anchored) + TextSeq(rs)
    ensures Ascii(HeadText(anchored))
  {
    PrefixText();
    TextSeqAppend([PREFIX], rs);
    assert [] + rs == rs;
  }

  lemma {:induction false} AnchoredPrints(head: string, body: string, all: string)
    requires Ascii(head) && all == head + body
    ensures "^" + head + Encode(body) + "$" == Encode("^" + all + "$")
  {
    EncodeAround("^", head, body, "$");
    Assoc("^", head, body);
    Assoc("^", head, Encode(body));
  }

  lemma {:induction false} EncodeAround(start: string, head: string, body: string, end: string)
    requires Ascii(start) && Ascii(head) && Ascii(end)
    ensures Encode(start + (head + body) + end) == start + (head + Encode(body)) + end
  {
    EncodeAppend(start + (head + body), end);
    EncodeAscii(end);
    EncodeBehind(start, head + body);
    EncodeBehind(head, body);
  }

  lemma {:induction false} EncodeBehind(head: string, body: string)
    requires Ascii(head)
    ensures Encode(head + body) == head + Encode(body)
  {
    EncodeAppend(head, body);
    EncodeAscii(head);
  }

  /** What the text accepts in any engine that compiles it. */
  lemma {:induction false} TextAccepts(e: Engine, pattern: string, anchored: bool, w: string)
    requires NoClass(pattern) && EngineOk(e) && e(RegexText(pattern, anchored)).Some?
    ensures Accepts(e, RegexText(pattern, anchored), w) <==> InSeq(AllPieces(pattern, anchored), w)
  {
    TextPrints(pattern, anchored);
    PiecesSimple(pattern);
    CompileText(AllPieces(pattern, anchored));
  }

  lemma {:induction false} TextMeaning(pattern: string, anchored: bool)
    ensures NoClass(pattern) ==> RegexText(pattern, anchored) == Emitted(pattern, anchored)
    ensures forall e, ss: Path |
              && NoClass(pattern) && WholeStars(Split(pattern)) && EngineOk(e)
              && e(RegexText(pattern, anchored)).Some? && Ok(ss) && ss != [] ::
                Accepts(e, RegexText(pattern, anchored), Join(ss)) <==> MatchSegs(Segments(pattern, anchored), ss)
  {
    if NoClass(pattern) {
      TextPrints(pattern, anchored);
      forall e, ss: Path |
        WholeStars(Split(pattern)) && EngineOk(e) && e(RegexText(pattern, anchored)).Some? && Ok(ss) && ss != []
        ensures Accepts(e, RegexText(pattern, anchored), Join(ss)) <==> MatchSegs(Segments(pattern, anchored), ss)
      {
        TextAccepts(e, pattern, anchored, Join(ss));
        CompilerPreservesMeaning(pattern, anchored, ss);
      }
    }
  }

  // ---------- The compiled regex accepts what the segments mean ----------

  lemma {:induction false} CompilerPreservesMeaning(pattern: string, anchored: bool, ss: Path)
    requires WholeStars(Split(pattern))
    requires Ok(ss) && ss != []
    ensures InSeq(AllPieces(pattern, anchored), Join(ss)) <==> MatchSegs(Segments(pattern, anchored), ss)
  {
    if anchored {
      assert AllPieces(pattern, anchored) == Pieces(pattern);
      assert Segments(pattern, anchored) == Split(pattern);
      FromSegmentStart(pattern, ss);
    } else {
      forall j | 0 <= j < |ss|
        ensures InSeq(Pieces(pattern), Join(ss[j..])) <==> MatchSegs(Split(pattern), ss[j..])
      {
        FromSegmentStart(pattern, ss[j..]);
      }
      GroupIsGlobstar(Star(AnyChar), Pieces(pattern), Split(pattern), ss);
    }
  }

  lemma {:induction false} GroupIsGlobstar(x: Regex, rs: seq<Regex>, ps: seq<string>, ss: Path)
    requires x == Star(AnyChar) || x == Plus(AnyChar)
    requires Ok(ss) && ss != [] && ps != []
    requires forall j | 0 <= j < |ss| :: InSeq(rs, Join(ss[j..])) <==> MatchSegs(ps, ss[j..])
    ensures InSeq([Opt([x, Lit('/')])] + rs, Join(ss)) <==> MatchSegs(["**"] + ps, ss)
  {
    GroupSkipsSegments(x, rs, ss);
    GlobstarFirst(ps, ss);
  }

  lemma {:induction false} GlobstarFirst(ps: seq<string>, ss: Path)
    requires ps != []
    ensures MatchSegs(["**"] + ps, ss) <==>
            exists j | 0 <= j < |ss| :: NoNewline(ss[..j]) && MatchSegs(ps, ss[j..])
  {
    var qs := ["**"] + ps;
    assert qs[0] == "**" && qs[1..] == ps && |qs| != 1;
    NeedsSegment(ps);
    assert ss[|ss|..] == [];
  }

  lemma {:induction false} DoubleStar()
    ensures HasStars("**")
  {
    var u := "**";
    assert u[0] == '*' && u[0 + 1] == '*';
  }

  /** A pattern without a slash tests the last segment, at any level. */
  lemma {:induction false} SlashFreeTestsLastSegment(pattern: string, ss: Path)
    requires '/' !in pattern && !HasStars(pattern) && Ok(ss) && ss != []
    ensures InSeq(AllPieces(pattern, false), Join(ss)) <==>
            NoNewline(ss[..|ss| - 1]) && SegMatch(pattern, ss[|ss| - 1])
  {
    SplitWord(pattern);
    CompilerPreservesMeaning(pattern, false, ss);
    GlobstarFirst([pattern], ss);
    DoubleStar();
    forall j | 0 <= j < |ss|
      ensures MatchSegs([pattern], ss[j..]) <==> j == |ss| - 1 && SegMatch(pattern, ss[|ss| - 1])
    {
      OneGlob(pattern, ss, j);
    }
  }

  lemma {:induction false} OneGlob(g: string, ss: Path, j: nat)
    requires g != "**" && j < |ss|
    ensures MatchSegs([g], ss[j..]) <==> j == |ss| - 1 && SegMatch(g, ss[|ss| - 1])
  {
    assert [g][1..] == [] && ss[j..][0] == ss[j];
    assert ss[j..][1..] == [] <==> j == |ss| - 1;
  }

  // `(.+/)?` or `(.*/)?` at the start of a segment skips any number of newline-free segments.
  lemma {:induction false} GroupSkipsSegments(x: Regex, rs: seq<Regex>, ss: Path)
    requires x == Star(AnyChar) || x == Plus(AnyChar)
    requires Ok(ss) && ss != []
    ensures InSeq([Opt([x, Lit('/')])] + rs, Join(ss)) <==>
            exists j | 0 <= j < |ss| :: NoNewline(ss[..j]) && InSeq(rs, Join(ss[j..]))
  {
    var g, w := Opt([x, Lit('/')]), Join(ss);
    InSeqCons(g, rs, w);
    if j :| 0 <= j < |ss| && NoNewline(ss[..j]) && InSeq(rs, Join(ss[j..])) {
      HeadTail(ss, j);
      HeadShape(x, ss, j);
      InSeqIntro(g, rs, Head(ss, j), Join(ss[j..]));
    }
    if k :| 0 <= k <= |w| && In(g, w[..k]) && InSeq(rs, w[k..]) {
      OptDirs(x, w[..k]);
      var j := Boundary(ss, k);
      HeadTail(ss, j);
      HeadShape(x, ss, j);
      assert NoNewline(ss[..j]) && w[k..] == Join(ss[j..]);
    }
  }

  /** The text of the first j segments, with the slash that ends it. */
  function Head(ss: Path, j: nat): string
    requires j <= |ss|
  {
    if j == 0 then "" else Join(ss[..j]) + "/"
  }

  lemma {:induction false} HeadTail(ss: Path, j: nat)
    requires j < |ss|
    ensures Join(ss) == Head(ss, j) + Join(ss[j..])
  {
    if j == 0 {
      assert ss[0..] == ss;
    } else {
      HeadTail(ss[1..], j - 1);
      HeadStep(ss, j);
      assert ss[1..][j - 1..] == ss[j..];
      assert Join(ss) == ss[0] + "/" + Join(ss[1..]);
    }
  }

  lemma {:induction false} HeadStep(ss: Path, j: nat)
    requires 0 < j <= |ss|
    ensures Head(ss, j) == ss[0] + "/" + Head(ss[1..], j - 1)
  {
    assert ss[..j][1..] == ss[1..][..j - 1] && ss[..j][0] == ss[0];
  }

  lemma {:induction false} HeadShape(x: Regex, ss: Path, j: nat)
    requires x == Star(AnyChar) || x == Plus(AnyChar)
    requires Ok(ss) && j < |ss|
    ensures In(Opt([x, Lit('/')]), Head(ss, j)) <==> NoNewline(ss[..j])
  {
    var w := Head(ss, j);
    OptDirs(x, w);
    if j > 0 {
      NewlineFreeJoin(ss[..j]);
      HeadStep(ss, j);
      assert w[|w| - 1] == '/' && |w| > 1;
    }
  }

  /** A prefix of the text that is empty or ends in a slash is the head of some segments. */
  lemma {:induction false} Boundary(ss: Path, k: nat) returns (j: nat)
    requires Ok(ss) && ss != [] && k <= |Join(ss)|
    requires k == 0 || Join(ss)[k - 1] == '/'
    ensures j < |ss| && Join(ss)[..k] == Head(ss, j)
  {
    if k == 0 {
      j := 0;
    } else {
      assert |ss| > 1;
      BehindSlash(ss[0], Join(ss[1..]), k);
      var j' := Boundary(ss[1..], k - |ss[0]| - 1);
      j := j' + 1;
      HeadStep(ss, j);
    }
  }

  lemma {:induction false} BehindSlash(s: string, t: string, k: nat)
    requires '/' !in s && 0 < k <= |s + "/" + t| && (s + "/" + t)[k - 1] == '/'
    ensures k > |s| && (s + "/" + t)[..k] == s + "/" + t[..k - |s| - 1]
    ensures k > |s| + 1 ==> t[k - |s| - 2] == '/'
  {
    var w := s + "/" + t;
    assert forall i | 0 <= i < |s| :: w[i] in s;
  }

  /** Inside one segment: the glob u is matched against the slash-free x, then the rest follows. */
  lemma {:induction false} WithinSegment(u: string, t: string, x: string, y: string)
    requires '/' !in u && !HasStars(u)
    requires t == "" || t[0] == '/'
    requires '/' !in x && (y == "" || y[0] == '/')
    ensures InSeq(Pieces(u + t), x + y) <==> SegMatch(u, x) && InSeq(Pieces(t), y)
  {
    var w := x + y;
    if u == "" {
      assert u + t == t;
      GlobEnds(t, x, y);
    } else {
      var u' := u[1..];
      var rs := Pieces(u' + t);
      StarsInTail(u);
      InsideGlob(u, t);
      forall k | 0 <= k <= |x| ensures InSeq(rs, w[k..]) <==> SegMatch(u', x[k..]) && InSeq(Pieces(t), y) {
        WithinSegment(u', t, x[k..], y);
        assert w[k..] == x[k..] + y;
      }
      if u[0] == '*' {
        StarInSegment(rs, x, y);
      } else {
        OneChar(OneCharPiece(u[0]), rs, w);
        FirstOfSegment(x, y);
      }
    }
  }

  lemma {:induction false} FirstOfSegment(x: string, y: string)
    requires '/' !in x
    ensures x == "" ==> x + y == y
    ensures x != "" ==> (x + y)[0] == x[0] && x[0] != '/'
  {}

  lemma {:induction false} StarsInTail(u: string)
    requires u != "" && !HasStars(u)
    ensures !HasStars(u[1..])
  {}

  /** Where the glob ends, so does the segment. */
  lemma {:induction false} GlobEnds(t: string, x: string, y: string)
    requires t == "" || t[0] == '/'
    requires '/' !in x && (y == "" || y[0] == '/')
    ensures InSeq(Pieces(t), x + y) <==> x == "" && InSeq(Pieces(t), y)
  {
    FirstOfSegment(x, y);
    if x != "" && t != "" {
      SlashPieces(t[1..]);
      assert t == "/" + t[1..];
      InSeqLit('/', Pieces(t[1..]), x + y);
    }
  }

  lemma {:induction false} InSeqIntro(r: Regex, rs: seq<Regex>, u: string, v: string)
    requires In(r, u) && InSeq(rs, v)
    ensures InSeq([r] + rs, u + v)
  {
    InSeqCons(r, rs, u + v);
    assert (u + v)[..|u|] == u && (u + v)[|u|..] == v;
  }

  lemma {:induction false} InsideGlob(u: string, t: string)
    requires u != "" && '/' !in u && !HasStars(u)
    requires t == "" || t[0] == '/'
    ensures Pieces(u + t) == [OneCharPiece(u[0])] + Pieces(u[1..] + t)
  {
    var q := u + t;
    assert q[1..] == u[1..] + t && q[0] == u[0] && u[0] in u;
    SliceTests(q, 0);
    assert q[0..] == q;
    if |u| > 1 {
      assert q[1] == u[1] && !(u[0] == '*' && u[0 + 1] == '*');
    } else if t != "" {
      assert q[1] == t[0];
    }
  }

  /** `[^/]*` stays inside the segment. */
  lemma {:induction false} StarInSegment(rs: seq<Regex>, x: string, y: string)
    requires '/' !in x && (y == "" || y[0] == '/')
    ensures InSeq([Star(NotSlash)] + rs, x + y) <==> exists k | 0 <= k <= |x| :: InSeq(rs, (x + y)[k..])
  {
    var w := x + y;
    InSeqCons(Star(NotSlash), rs, w);
    assert y != "" ==> w[|x|] == '/';
    forall k | 0 <= k <= |w| ensures In(Star(NotSlash), w[..k]) <==> k <= |x| {
      StarNotSlash(w[..k]);
      if k <= |x| {
        assert w[..k] == x[..k];
      } else {
        assert w[..k][|x|] == w[|x|];
      }
    }
  }

  lemma {:induction false} OneChar(r: Regex, rs: seq<Regex>, w: string)
    requires r.NotSlash? || r.Lit?
    ensures InSeq([r] + rs, w) <==>
            w != "" && (if r.Lit? then w[0] == r.c else w[0] != '/') && InSeq(rs, w[1..])
  {}

  /** The three spellings the compiler has for a slash all emit the slash and go on. */
  lemma {:induction false} SlashPieces(q: string)
    ensures Pieces("/" + q) == [Lit('/')] + Pieces(q)
  {
    var p := "/" + q;
    assert p[1..] == q && p[0] == '/';
    if "/**/" <= p {
      SlashDirs(q);
    } else if p == "/**" {
      SlashStars(q);
    }
  }

  lemma {:induction false} SlashDirs(q: string)
    requires "**/" <= q
    ensures Pieces("/" + q) == [Lit('/')] + Pieces(q)
  {
    var p := "/" + q;
    assert p[4..] == q[3..] && "/**/" <= p;
    Assoc([Lit('/')], [DIRS], Pieces(q[3..]));
    assert [Lit('/'), DIRS] == [Lit('/')] + [DIRS];
  }

  lemma {:induction false} SlashStars(q: string)
    requires q == "**"
    ensures Pieces("/" + q) == [Lit('/')] + Pieces(q)
  {
    var p := "/" + q;
    assert p == "/**" && p[3..] == "" && q[2..] == "" && Pieces("") == [];
    assert p[0] == '/' && q[0] == '*' && q[1] == '*' && |p| == 3;
    assert Pieces(q) == [ANY] && Pieces(p) == [Lit('/'), ANY];
  }

  /** From the start of a segment on, text matching is segment matching. */
  lemma {:induction false} FromSegmentStart(q: string, ss: Path)
    requires WholeStars(Split(q))
    requires Ok(ss) && ss != []
    ensures InSeq(Pieces(q), Join(ss)) <==> MatchSegs(Split(q), ss)
    decreases |q|
  {
    var ps := Split(q);
    if ps[0] == "**" {
      LeadingStars(q, ss);
    } else if |ps| == 1 {
      var y := if |ss| == 1 then "" else "/" + Join(ss[1..]);
      assert Join(ss) == ss[0] + y;
      WithinSegment(q, "", ss[0], y);
      assert q == q + "" && ps[1..] == [];
    } else {
      var q' := Join(ps[1..]);
      SplitJoin(ps[1..]);
      if |ss| > 1 { FromSegmentStart(q', ss[1..]); }
      GlobThenSlash(ps, ss);
    }
  }

  lemma {:induction false} GlobThenSlash(ps: seq<string>, ss: Path)
    requires |ps| > 1 && ps[0] != "**" && !HasStars(ps[0]) && '/' !in ps[0]
    requires Ok(ss) && ss != []
    requires |ss| > 1 ==> InSeq(Pieces(Join(ps[1..])), Join(ss[1..])) == MatchSegs(ps[1..], ss[1..])
    ensures InSeq(Pieces(Join(ps)), Join(ss)) <==> MatchSegs(ps, ss)
  {
    var q' := Join(ps[1..]);
    var y := if |ss| == 1 then "" else "/" + Join(ss[1..]);
    assert Join(ps) == ps[0] + ("/" + q') && Join(ss) == ss[0] + y;
    WithinSegment(ps[0], "/" + q', ss[0], y);
    SlashThen(ps[1..], ss[1..], y);
  }

  lemma {:induction false} SlashThen(ps: seq<string>, ss: Path, y: string)
    requires ps != [] && y == if ss == [] then "" else "/" + Join(ss)
    requires ss != [] ==> InSeq(Pieces(Join(ps)), Join(ss)) == MatchSegs(ps, ss)
    ensures InSeq(Pieces("/" + Join(ps)), y) <==> MatchSegs(ps, ss)
  {
    SlashPieces(Join(ps));
    InSeqLit('/', Pieces(Join(ps)), y);
    if ss == [] {
      NeedsSegment(ps);
    } else {
      assert y[1..] == Join(ss);
    }
  }

  lemma {:induction false} LeadingStars(q: string, ss: Path)
    requires WholeStars(Split(q)) && Split(q)[0] == "**"
    requires Ok(ss) && ss != []
    ensures InSeq(Pieces(q), Join(ss)) <==> MatchSegs(Split(q), ss)
    decreases |q|, 0
  {
    var ps, w := Split(q), Join(ss);
    if |ps| == 1 {
      assert q == "**" && q[2..] == "";
      assert Pieces(q) == [ANY] + Pieces("");
      InSeqCons(ANY, [], w);
      StarAny(w);
      assert w[..|w|] == w;
      NewlineFreeJoin(ss);
    } else {
      var q' := Join(ps[1..]);
      assert q == "**" + "/" + q';
      assert q[3..] == q' && "**/" <= q;
      SplitJoin(ps[1..]);
      forall j | 0 <= j < |ss|
        ensures InSeq(Pieces(q'), Join(ss[j..])) <==> MatchSegs(ps[1..], ss[j..])
      {
        FromSegmentStart(q', ss[j..]);
      }
      GroupIsGlobstar(Plus(AnyChar), Pieces(q'), ps[1..], ss);
      assert ps == ["**"] + ps[1..];
    }
  }

  lemma {:induction false} NeedsSegment(ps: seq<string>)
    requires ps != []
    ensures !MatchSegs(ps, [])
    decreases |ps|
  {
    if |ps| > 1 { NeedsSegment(ps[1..]); }
  }

  lemma {:induction false} NewlineFreeJoin(ss: Path)
    requires Ok(ss)
    ensures '\n' !in Join(ss) <==> NoNewline(ss)
  {
    if |ss| > 1 {
      NewlineFreeJoin(ss[1..]);
      assert ss == [ss[0]] + ss[1..];
    }
  }

  // ---------- Lines ----------

  datatype Rule = Rule(accepts: string -> bool, negate: bool, dirOnly: bool)
  datatype Verdict = NoMatch | Ignored | Included

  /** One meaningful line of an ignore file. */
  datatype Line = Line(pattern: string, anchored: bool, negate: bool, dirOnly: bool)

  predicate IsBlank(c: char) {
    c == ' ' || c == '\t'
  }

  function TrimRight(s: string): string {
    if s != "" && IsBlank(s[|s| - 1]) then TrimRight(s[..|s| - 1]) else s
  }

  function ParsePattern(body: string, negate: bool): Line {
    var dirOnly := body != "" && body[|body| - 1] == '/';
    var p := if dirOnly then body[..|body| - 1] else body;
    Line(if "/" <= p then p[1..] else p, '/' in p, negate, dirOnly)
  }

  /** None for blank lines and comments. */
  function ParseLine(raw: string): Option<Line> {
    var line := TrimRight(raw);
    if line == "" then None
    else if "\\#" <= line || "\\!" <= line then Some(ParsePattern(line[1..], false))
    else if "#" <= line then None
    else if "!" <= line then Some(ParsePattern(line[1..], true))
    else Some(ParsePattern(line, false))
  }

  function VerdictOf(l: Line, isDir: bool, matches: bool): Verdict {
    if (l.dirOnly && !isDir) || !matches then NoMatch
    else if l.negate then Included else Ignored
  }

  /** What one line says about a path: nothing if its text does not compile. */
  function LineSays(e: Engine, raw: string, path: string, isDir: bool): Verdict {
    match ParseLine(raw)
    case None => NoMatch
    case Some(l) => VerdictOf(l, isDir, Accepts(e, RegexText(l.pattern, l.anchored), path))
  }

  // ---------- What a line says, read off its text ----------

  /** Blank lines and comments say nothing. */
  lemma {:induction false} SilentLine(e: Engine, raw: string, path: string, isDir: bool)
    requires (forall i | 0 <= i < |raw| :: IsBlank(raw[i])) || raw[0] == '#'
    ensures LineSays(e, raw, path, isDir) == NoMatch
  {
    if raw != "" && raw[0] == '#' { FirstKept(raw); } else { AllTrimmed(raw); }
  }

  /** Any other line is a mark, which is `!` to include again what matches, `\` before a `#` or a `!` to
      take it as it is, or nothing; a leading slash or none; the pattern proper; a trailing slash, which
      restricts it to directories, or none; and blanks. It is anchored by the leading slash, or by one
      inside. */
  lemma {:induction false} LineRead(e: Engine, mark: string, lead: bool, core: string, dirs: bool, blanks: string,
                                    path: string, isDir: bool)
    requires Readable(mark, lead, core, dirs, blanks)
    ensures LineSays(e, mark + Body(lead, core, dirs) + blanks, path, isDir) ==
            if dirs && !isDir then NoMatch
            else if !Accepts(e, RegexText(core, lead || '/' in core), path) then NoMatch
            else if mark == "!" then Included else Ignored
  {
    MarkParsed(mark, Body(lead, core, dirs), blanks);
    BodyParsed(lead, core, dirs, mark == "!");
  }

  function Body(lead: bool, core: string, dirs: bool): string {
    (if lead then "/" else "") + core + (if dirs then "/" else "")
  }

  /** The slashes of the pattern proper are neither the leading nor the trailing one, and the mark is one. */
  predicate Readable(mark: string, lead: bool, core: string, dirs: bool, blanks: string) {
    && (lead || core == "" || core[0] != '/')
    && (var body := Body(lead, core, dirs); dirs || body == "" || body[|body| - 1] != '/')
    && Marked(mark, Body(lead, core, dirs), blanks)
  }

  /** There is something besides blanks, and without a mark nothing that would be taken for one, nor for a
      comment. */
  predicate Marked(mark: string, body: string, blanks: string) {
    var line := mark + body;
    && line != "" && !IsBlank(line[|line| - 1]) && (forall i | 0 <= i < |blanks| :: IsBlank(blanks[i]))
    && if mark == "" then body[0] !in "#!" && !("\\#" <= body) && !("\\!" <= body)
       else mark == "!" || (mark == "\\" && body != "" && body[0] in "#!")
  }

  lemma {:induction false} MarkParsed(mark: string, body: string, blanks: string)
    requires Marked(mark, body, blanks)
    ensures ParseLine(mark + body + blanks) == Some(ParsePattern(body, mark == "!"))
  {
    BlanksTrimmed(mark + body, blanks);
    if mark == "" { assert mark + body == body; } else { MarkTaken(mark[0], body); }
  }

  lemma {:induction false} MarkTaken(mark: char, body: string)
    ensures var line := [mark] + body;
            && line[1..] == body && ("#" <= line <==> mark == '#') && ("!" <= line <==> mark == '!')
            && ("\\#" <= line <==> mark == '\\' && "#" <= body) && ("\\!" <= line <==> mark == '\\' && "!" <= body)
  {
    assert "\\#" == ['\\', '#'] && "\\!" == ['\\', '!'] && "#" == ['#'] && "!" == ['!'];
    assert ([mark] + body)[0] == mark && ([mark] + body)[..1] == [mark];
    TwoTaken(mark, body, '\\', '#');
    TwoTaken(mark, body, '\\', '!');
  }

  lemma {:induction false} TwoTaken(mark: char, body: string, a: char, b: char)
    ensures [a, b] <= [mark] + body <==> mark == a && [b] <= body
  {
    var line, two := [mark] + body, [a, b];
    assert two[0] == a && two[1] == b && line[0] == mark;
    if body != "" { assert line[1] == body[0]; }
    if mark == a && [b] <= body { assert body[0] == b; }
    if two <= line { assert line[..2] == two; }
  }

  lemma {:induction false} BodyParsed(lead: bool, core: string, dirs: bool, negate: bool)
    requires lead || core == "" || core[0] != '/'
    requires var body := Body(lead, core, dirs); dirs || body == "" || body[|body| - 1] != '/'
    ensures ParsePattern(Body(lead, core, dirs), negate) == Line(core, lead || '/' in core, negate, dirs)
  {
    var body := Body(lead, core, dirs);
    var p := if dirs then body[..|body| - 1] else body;
    assert p == (if lead then "/" else "") + core;
    if lead { assert p[1..] == core; } else { assert p == core; }
  }

  lemma {:induction false} BlanksTrimmed(line: string, blanks: string)
    requires line != "" && !IsBlank(line[|line| - 1]) && forall i | 0 <= i < |blanks| :: IsBlank(blanks[i])
    ensures TrimRight(line + blanks) == line
  {
    if blanks == "" {
      assert line + blanks == line;
    } else {
      BlanksTrimmed(line, blanks[..|blanks| - 1]);
      assert (line + blanks)[..|line + blanks| - 1] == line + blanks[..|blanks| - 1];
    }
  }

  lemma {:induction false} AllTrimmed(s: string)
    requires forall i | 0 <= i < |s| :: IsBlank(s[i])
    ensures TrimRight(s) == ""
  {
    if s != "" { AllTrimmed(s[..|s| - 1]); }
  }

  lemma {:induction false} FirstKept(s: string)
    requires s != "" && !IsBlank(s[0])
    ensures TrimRight(s) != "" && TrimRight(s)[0] == s[0]
  {
    if IsBlank(s[|s| - 1]) { FirstKept(s[..|s| - 1]); }
  }

  /** Every line that is not silent is of that form. */
  lemma {:induction false} LineReadable(raw: string)
    returns (mark: string, lead: bool, core: string, dirs: bool, blanks: string)
    requires (exists i :: 0 <= i < |raw| && !IsBlank(raw[i])) && raw[0] != '#'
    ensures Readable(mark, lead, core, dirs, blanks) && raw == mark + Body(lead, core, dirs) + blanks
  {
    blanks := Trimmed(raw);
    var body;
    mark, body := MarkRead(TrimRight(raw), blanks);
    lead, core, dirs := BodyRead(body);
  }

  lemma {:induction false} MarkRead(line: string, blanks: string) returns (mark: string, body: string)
    requires line != "" && line[0] != '#' && !IsBlank(line[|line| - 1])
    requires forall i | 0 <= i < |blanks| :: IsBlank(blanks[i])
    ensures line == mark + body && Marked(mark, body, blanks)
  {
    if "\\#" <= line || "\\!" <= line {
      mark, body := "\\", line[1..];
      assert line == mark + body && body[0] == line[1];
    } else if "!" <= line {
      mark, body := "!", line[1..];
      assert line == mark + body;
    } else {
      mark, body := "", line;
      assert line == mark + body;
    }
  }

  lemma {:induction false} BodyRead(body: string) returns (lead: bool, core: string, dirs: bool)
    ensures body == Body(lead, core, dirs)
    ensures (lead || core == "" || core[0] != '/') && (dirs || body == "" || body[|body| - 1] != '/')
  {
    dirs := body != "" && body[|body| - 1] == '/';
    var p := if dirs then body[..|body| - 1] else body;
    lead := "/" <= p;
    core := if lead then p[1..] else p;
    assert p == (if lead then "/" else "") + core;
  }

  lemma {:induction false} Trimmed(raw: string) returns (blanks: string)
    requires exists i :: 0 <= i < |raw| && !IsBlank(raw[i])
    ensures raw == TrimRight(raw) + blanks && forall i | 0 <= i < |blanks| :: IsBlank(blanks[i])
    ensures var line := TrimRight(raw); line != "" && line[0] == raw[0] && !IsBlank(line[|line| - 1])
  {
    blanks := "";
    var n := |raw| - 1;
    if IsBlank(raw[n]) {
      BlanksBefore(raw);
      blanks := Trimmed(raw[..n]);
      assert raw == raw[..n] + [raw[n]];
      assert TrimRight(raw) == TrimRight(raw[..n]);
      Assoc(TrimRight(raw), blanks, [raw[n]]);
      blanks := blanks + [raw[n]];
    } else {
      assert raw == raw + "";
    }
  }

  lemma {:induction false} BlanksBefore(raw: string)
    requires raw != "" && IsBlank(raw[|raw| - 1]) && exists i :: 0 <= i < |raw| && !IsBlank(raw[i])
    ensures var less := raw[..|raw| - 1];
            less != "" && less[0] == raw[0] && exists i :: 0 <= i < |less| && !IsBlank(less[i])
  {
    var i :| 0 <= i < |raw| && !IsBlank(raw[i]);
    assert raw[..|raw| - 1][i] == raw[i];
  }

  /** A bracket expression goes into the text as it is, but for a leading `!`. */
  lemma {:induction false} BracketText(inside: string, rest: string)
    requires ']' !in inside
    ensures BodyText("[" + inside + "]" + rest) ==
            (if inside != "" && inside[0] == '!' then "[^" + inside[1..] + "]" else "[" + inside + "]") + BodyText(rest)
  {
    var q := "[" + inside + "]" + rest;
    BracketEnd(inside, rest);
    var n := ClassEnd(q);
    assert q[..n] == "[" + inside + "]" && q[n..] == rest;
    BracketClass(inside);
  }

  lemma {:induction false} BracketEnd(inside: string, rest: string)
    requires ']' !in inside
    ensures ClassEnd("[" + inside + "]" + rest) == |inside| + 2
  {
    var q := "[" + inside + "]" + rest;
    var n := |inside| + 1;
    assert q[n] == ']' && forall i | 0 < i < n :: q[i] == inside[i - 1];
  }

  lemma {:induction false} BracketClass(inside: string)
    ensures ClassText("[" + inside + "]") ==
            if inside != "" && inside[0] == '!' then "[^" + inside[1..] + "]" else "[" + inside + "]"
  {
    var b := "[" + inside + "]";
    if inside != "" && inside[0] == '!' { assert b[2..] == inside[1..] + "]"; }
  }

  /** The verdict of one line on a path. */
  type Judge = (string, string, bool) -> Verdict

  /** The judge gives the verdicts of lines that the engine compiles. */
  ghost predicate Judges(j: Judge, e: Engine) {
    forall raw, path, isDir {:trigger LineSays(e, raw, path, isDir)} ::
      j(raw, path, isDir) == LineSays(e, raw, path, isDir)
  }

  function JudgeOf(e: Engine): (j: Judge)
    ensures Judges(j, e)
  {
    (raw, path, isDir) => LineSays(e, raw, path, isDir)
  }

  /** The last line that says anything decides. */
  function LinesSay(j: Judge, lines: seq<string>, path: string, isDir: bool): Verdict {
    if lines == [] then NoMatch
    else
      var last := j(lines[|lines| - 1], path, isDir);
      if last != NoMatch then last else LinesSay(j, lines[..|lines| - 1], path, isDir)
  }

  /** So its verdict is that of a line behind which all are silent. */
  lemma {:induction false} LastDecides(j: Judge, lines: seq<string>, path: string, isDir: bool)
    ensures LinesSay(j, lines, path, isDir) == NoMatch <==>
            forall i | 0 <= i < |lines| :: j(lines[i], path, isDir) == NoMatch
    ensures forall i | 0 <= i < |lines| && j(lines[i], path, isDir) != NoMatch
                       && (forall k | i < k < |lines| :: j(lines[k], path, isDir) == NoMatch) ::
              LinesSay(j, lines, path, isDir) == j(lines[i], path, isDir)
  {
    if lines != [] {
      var n := |lines| - 1;
      LastDecides(j, lines[..n], path, isDir);
      assert forall i | 0 <= i < n :: lines[..n][i] == lines[i];
      if j(lines[n], path, isDir) != NoMatch {
        assert LinesSay(j, lines, path, isDir) == j(lines[n], path, isDir);
      } else {
        assert LinesSay(j, lines, path, isDir) == LinesSay(j, lines[..n], path, isDir);
      }
    }
  }

  /** The engine compiles the line's text. */
  predicate Compiles(e: Engine, raw: string) {
    var l := ParseLine(raw);
    l.Some? ==> e(RegexText(l.value.pattern, l.value.anchored)).Some?
  }

  /** No bracket expressions, and double stars only as whole segments. */
  ghost predicate Supported(e: Engine, raw: string) {
    var l := ParseLine(raw);
    Compiles(e, raw) && (l.Some? ==> NoClass(l.value.pattern) && WholeStars(Split(l.value.pattern)))
  }

  /** The same by segments. */
  ghost function LineMeans(raw: string, ss: Path, isDir: bool): Verdict {
    match ParseLine(raw)
    case None => NoMatch
    case Some(l) => VerdictOf(l, isDir, MatchSegs(Segments(l.pattern, l.anchored), ss))
  }

  ghost function LinesMean(lines: seq<string>, ss: Path, isDir: bool): Verdict {
    if lines == [] then NoMatch
    else
      var last := LineMeans(lines[|lines| - 1], ss, isDir);
      if last != NoMatch then last else LinesMean(lines[..|lines| - 1], ss, isDir)
  }

  lemma {:induction false} SupportedLine(e: Engine, raw: string, ss: Path, isDir: bool)
    requires EngineOk(e) && Supported(e, raw) && Ok(ss) && ss != []
    ensures LineSays(e, raw, Join(ss), isDir) == LineMeans(raw, ss, isDir)
  {
    match ParseLine(raw)
    case None =>
    case Some(l) =>
      TextAccepts(e, l.pattern, l.anchored, Join(ss));
      CompilerPreservesMeaning(l.pattern, l.anchored, ss);
  }

  /** What the compiled lines of a file say about a path is what they mean segment by segment. */
  lemma {:induction false} SupportedLines(e: Engine, j: Judge, lines: seq<string>, ss: Path, isDir: bool)
    requires EngineOk(e) && Judges(j, e) && Ok(ss) && ss != []
    requires forall i | 0 <= i < |lines| :: Supported(e, lines[i])
    ensures LinesSay(j, lines, Join(ss), isDir) == LinesMean(lines, ss, isDir)
  {
    if lines != [] {
      SupportedLine(e, lines[|lines| - 1], ss, isDir);
      SupportedLines(e, j, lines[..|lines| - 1], ss, isDir);
    }
  }

  function RuleSays(r: Rule, path: string, isDir: bool): Verdict {
    if (r.dirOnly && !isDir) || !r.accepts(path) then NoMatch
    else if r.negate then Included else Ignored
  }

  function RulesSay(rules: seq<Rule>, path: string, isDir: bool): Verdict {
    if rules == [] then NoMatch
    else
      var last := RuleSays(rules[|rules| - 1], path, isDir);
      if last != NoMatch then last else RulesSay(rules[..|rules| - 1], path, isDir)
  }

  /** gitIgnore.MatchResult: a forward loop in which later rules override earlier ones. */
  method MatchResult(rules: seq<Rule>, path: string, isDir: bool) returns (result: Verdict)
    ensures result == RulesSay(rules, path, isDir)
    ensures result == NoMatch <==> forall i | 0 <= i < |rules| :: RuleSays(rules[i], path, isDir) == NoMatch
    ensures result != NoMatch ==>
              exists i | 0 <= i < |rules| ::
                && RuleSays(rules[i], path, isDir) == result
                && forall j | i < j < |rules| :: RuleSays(rules[j], path, isDir) == NoMatch
  {
    result := NoMatch;
    ghost var at := 0;
    for i := 0 to |rules|
      invariant result == RulesSay(rules[..i], path, isDir)
      invariant result == NoMatch ==> forall j | 0 <= j < i :: RuleSays(rules[j], path, isDir) == NoMatch
      invariant result != NoMatch ==> 0 <= at < i && RuleSays(rules[at], path, isDir) == result
      invariant result != NoMatch ==> forall j | at < j < i :: RuleSays(rules[j], path, isDir) == NoMatch
    {
      var p := rules[i];
      assert rules[..i + 1][..i] == rules[..i];
      if p.dirOnly && !isDir {
        continue;
      }
      if p.accepts(path) {
        at := i;
        if p.negate {
          result := Included;
        } else {
          result := Ignored;
        }
      }
    }
    assert rules[..|rules|] == rules;
  }

  /** One turn of compileGitIgnore's loop; None when the line is skipped. */
  method CompileLine(e: Engine, raw: string) returns (rule: Option<Rule>)
    ensures rule.Some? ==> forall path, isDir :: RuleSays(rule.value, path, isDir) == LineSays(e, raw, path, isDir)
    ensures rule.None? ==> forall path, isDir :: LineSays(e, raw, path, isDir) == NoMatch
    ensures rule.Some? <==> ParseLine(raw).Some? && Compiles(e, raw)
  {
    var line := TrimRight(raw);
    if line == "" {
      return None;
    }
    var negate := false;
    if "\\#" <= line || "\\!" <= line {
      line := line[1..];
    } else if "#" <= line {
      return None;
    } else if "!" <= line {
      line := line[1..];
      negate := true;
    }
    assert ParseLine(raw) == Some(ParsePattern(line, negate));
    rule := CompilePattern(e, line, negate);
    CompiledLine(e, raw, ParsePattern(line, negate), rule);
  }

  lemma {:induction false} CompiledLine(e: Engine, raw: string, l: Line, rule: Option<Rule>)
    requires ParseLine(raw) == Some(l)
    requires rule == Compiled(e, l)
    ensures rule.Some? ==> forall path, isDir :: RuleSays(rule.value, path, isDir) == LineSays(e, raw, path, isDir)
    ensures rule.None? ==> forall path, isDir :: LineSays(e, raw, path, isDir) == NoMatch
    ensures rule.Some? <==> Compiles(e, raw)
  {}

  /** The rule of a line, if its text compiles. */
  function Compiled(e: Engine, l: Line): Option<Rule> {
    var re := e(RegexText(l.pattern, l.anchored));
    if re.None? then None else Some(Rule(re.value, l.negate, l.dirOnly))
  }

  method CompilePattern(e: Engine, body: string, negate: bool) returns (rule: Option<Rule>)
    ensures rule == Compiled(e, ParsePattern(body, negate))
  {
    var line, dirOnly := body, false;
    if line != "" && line[|line| - 1] == '/' {
      dirOnly := true;
      line := line[..|line| - 1];
    }
    var anchored := '/' in line;
    if "/" <= line {
      line := line[1..];
    }
    assert ParsePattern(body, negate) == Line(line, anchored, negate, dirOnly);
    var text := GitignoreToRegex(line, anchored);
    var re := e(text);
    match re
    case None => rule := None;
    case Some(accepts) => rule := Some(Rule(accepts, negate, dirOnly));
  }

  /** compileGitIgnore: the compiled rules say of every path what the lines say of it, one by one,
      and where all lines are supported, what they mean segment by segment. */
  method CompileGitIgnore(e: Engine, ghost j: Judge, lines: seq<string>) returns (rules: seq<Rule>)
    requires Judges(j, e)
    ensures SameMeaning(j, rules, lines)
    ensures EngineOk(e) && (forall i | 0 <= i < |lines| :: Supported(e, lines[i])) ==>
              forall ss: Path, isDir | Ok(ss) && ss != [] ::
                RulesSay(rules, Join(ss), isDir) == LinesMean(lines, ss, isDir)
  {
    rules := [];
    for i := 0 to |lines|
      invariant SameMeaning(j, rules, lines[..i])
    {
      SliceNext(lines, i);
      var rule := CompileLine(e, lines[i]);
      JudgedLine(j, e, lines[i]);
      match rule
      case None =>
        SkipLine(j, rules, lines[..i], lines[i]);
      case Some(r) =>
        AddRule(j, rules, lines[..i], r, lines[i]);
        rules := rules + [r];
    }
    assert lines[..|lines|] == lines;
    forall ss: Path, isDir |
      EngineOk(e) && (forall i | 0 <= i < |lines| :: Supported(e, lines[i])) && Ok(ss) && ss != []
      ensures RulesSay(rules, Join(ss), isDir) == LinesMean(lines, ss, isDir)
    {
      SupportedLines(e, j, lines, ss, isDir);
    }
  }

  ghost predicate SameMeaning(j: Judge, rules: seq<Rule>, lines: seq<string>) {
    forall path, isDir :: RulesSay(rules, path, isDir) == LinesSay(j, lines, path, isDir)
  }

  lemma {:induction false} JudgedLine(j: Judge, e: Engine, raw: string)
    requires Judges(j, e)
    ensures forall path, isDir :: j(raw, path, isDir) == LineSays(e, raw, path, isDir)
  {}

  lemma {:induction false} SkipLine(j: Judge, rules: seq<Rule>, lines: seq<string>, raw: string)
    requires SameMeaning(j, rules, lines)
    requires forall path, isDir :: j(raw, path, isDir) == NoMatch
    ensures SameMeaning(j, rules, lines + [raw])
  {}

  lemma {:induction false} AddRule(j: Judge, rules: seq<Rule>, lines: seq<string>, r: Rule, raw: string)
    requires SameMeaning(j, rules, lines)
    requires forall path, isDir :: RuleSays(r, path, isDir) == j(raw, path, isDir)
    ensures SameMeaning(j, rules + [r], lines + [raw])
  {}
}
