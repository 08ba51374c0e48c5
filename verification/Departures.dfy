/** Where walker/gitignore.go departs from the PATTERN FORMAT section of gitignore(5), and for
    exactly which patterns: at newlines, with stars inside a longer segment, on backslashes, and on
    characters that are not ASCII. */
module Departures {
  import opened Seqs
  import opened Regex
  import opened Utf8
  import opened Wrappers
  import opened Paths
  import opened Gitignore

  // ---------- The manual's meaning ----------

  /** One segment against a glob. With escapes, a backslash makes the character behind it an ordinary
      one, and at the end of the glob matches nothing; without, it is itself an ordinary character. */
  ghost predicate GlobMatch(esc: bool, p: string, s: string)
    decreases |p|
  {
    if p == "" then s == ""
    else if esc && p[0] == '\\' then |p| > 1 && s != "" && s[0] == p[1] && GlobMatch(esc, p[2..], s[1..])
    else if p[0] == '*' then exists j | 0 <= j <= |s| :: GlobMatch(esc, p[1..], s[j..])
    else s != "" && (p[0] == '?' || p[0] == s[0]) && GlobMatch(esc, p[1..], s[1..])
  }

  /** A `**` before other segments stands for any segments, a trailing one for one or more. */
  ghost predicate Reads(esc: bool, ps: seq<string>, ss: Path)
    decreases |ps|
  {
    if ps == [] then ss == []
    else if ps[0] == "**" then
      if |ps| == 1 then ss != []
      else exists j | 0 <= j <= |ss| :: Reads(esc, ps[1..], ss[j..])
    else ss != [] && GlobMatch(esc, ps[0], ss[0]) && Reads(esc, ps[1..], ss[1..])
  }

  /** The segments of a pattern; an escaped slash is a slash. */
  function ManualSplit(q: string): (ps: seq<string>)
    ensures |ps| > 0 && forall i | 0 <= i < |ps| :: '/' !in ps[i]
  {
    if q == "" then [""]
    else if q[0] == '/' then [""] + ManualSplit(q[1..])
    else if q[0] == '\\' && |q| > 1 then
      var rest := ManualSplit(q[2..]);
      if q[1] == '/' then [""] + rest else [q[..2] + rest[0]] + rest[1..]
    else
      var rest := ManualSplit(q[1..]);
      [[q[0]] + rest[0]] + rest[1..]
  }

  function ManualSegments(q: string, anchored: bool): seq<string> {
    (if anchored then [] else ["**"]) + ManualSplit(q)
  }

  /** What gitignore(5) has a pattern without bracket expressions match. */
  ghost predicate Documented(q: string, anchored: bool, ss: Path) {
    Reads(true, ManualSegments(q, anchored), ss)
  }

  /** No backslash stands alone at the end. */
  predicate Ended(p: string) {
    if p == "" then true
    else if p[0] == '\\' then |p| > 1 && Ended(p[2..])
    else Ended(p[1..])
  }

  /** A segment that no segment of a path matches. */
  predicate Dead(esc: bool, p: string) {
    p == "" || (esc && !Ended(p))
  }

  predicate AllEnded(ps: seq<string>) {
    forall i | 0 <= i < |ps| :: Ended(ps[i])
  }

  lemma {:induction false} AllEndedFirst(p: string, ps: seq<string>, more: seq<string>)
    requires more == [p] + ps
    ensures AllEnded(more) <==> Ended(p) && AllEnded(ps)
  {
    if AllEnded(more) {
      assert more[0] == p;
      forall i | 0 <= i < |ps| ensures Ended(ps[i]) { assert more[i + 1] == ps[i]; }
    }
  }

  lemma {:induction false} EndedSplit(q: string)
    ensures Ended(q) <==> AllEnded(ManualSplit(q))
  {
    if q != "" {
      var ps := ManualSplit(q);
      var u := if q[0] == '\\' && |q| > 1 then q[..2] else q[..1];
      var rest := ManualSplit(q[|u|..]);
      EndedSplit(q[|u|..]);
      if u[|u| - 1] == '/' {
        AllEndedFirst("", rest, ps);
      } else {
        var p := u + rest[0];
        assert q[..1] == [q[0]];
        AllEndedFirst(rest[0], rest[1..], rest);
        AllEndedFirst(p, rest[1..], ps);
        EndedBehind(u, rest[0]);
      }
    }
  }

  lemma {:induction false} EndedBehind(u: string, r: string)
    requires |u| == 1 || (|u| == 2 && u[0] == '\\')
    requires |u| == 1 && u[0] == '\\' ==> r == ""
    ensures Ended(u + r) <==> Ended(r) && !(|u| == 1 && u[0] == '\\')
  {
    assert (u + r)[|u|..] == r;
  }

  lemma {:induction false} StarsAlive(esc: bool)
    ensures !Dead(esc, "**")
  {
    assert "**"[1..] == "*" && "*"[1..] == "";
  }

  lemma {:induction false} DeadMatchesNothing(esc: bool, p: string, s: string)
    requires Dead(esc, p) && s != ""
    ensures !GlobMatch(esc, p, s)
  {
    if GlobMatch(esc, p, s) { MatchedEnds(esc, p, s); }
  }

  lemma {:induction false} MatchedEnds(esc: bool, p: string, s: string)
    requires GlobMatch(esc, p, s)
    ensures esc ==> Ended(p)
    decreases |p|
  {
    if p != "" {
      if esc && p[0] == '\\' {
        MatchedEnds(esc, p[2..], s[1..]);
      } else if p[0] == '*' {
        var j :| 0 <= j <= |s| && GlobMatch(esc, p[1..], s[j..]);
        MatchedEnds(esc, p[1..], s[j..]);
      } else {
        MatchedEnds(esc, p[1..], s[1..]);
      }
    }
  }

  lemma {:induction false} DeadReadsNothing(esc: bool, ps: seq<string>, i: nat, ss: Path)
    requires i < |ps| && Dead(esc, ps[i]) && Ok(ss)
    ensures !Reads(esc, ps, ss)
    decreases |ps|
  {
    if i == 0 {
      StarsAlive(esc);
      if ss != [] { DeadMatchesNothing(esc, ps[0], ss[0]); }
    } else if ps[0] == "**" {
      forall j | 0 <= j <= |ss| ensures !Reads(esc, ps[1..], ss[j..]) {
        DeadReadsNothing(esc, ps[1..], i - 1, ss[j..]);
      }
    } else if ss != [] {
      DeadReadsNothing(esc, ps[1..], i - 1, ss[1..]);
    }
  }

  /** Without a backslash the two readings are one, and that of the code within a segment. */
  lemma {:induction false} PlainMatch(esc: bool, p: string, s: string)
    requires esc ==> '\\' !in p
    ensures GlobMatch(esc, p, s) <==> SegMatch(p, s)
    decreases |p|
  {
    if p != "" {
      assert p == [p[0]] + p[1..];
      forall j | 0 <= j <= |s| ensures GlobMatch(esc, p[1..], s[j..]) <==> SegMatch(p[1..], s[j..]) {
        PlainMatch(esc, p[1..], s[j..]);
      }
    }
  }

  lemma {:induction false} PlainReads(ps: seq<string>, ss: Path)
    requires forall i | 0 <= i < |ps| :: '\\' !in ps[i]
    ensures Reads(true, ps, ss) <==> Reads(false, ps, ss)
    decreases |ps|
  {
    if ps != [] {
      forall j | 0 <= j <= |ss| ensures Reads(true, ps[1..], ss[j..]) <==> Reads(false, ps[1..], ss[j..]) {
        PlainReads(ps[1..], ss[j..]);
      }
      if ss != [] {
        PlainMatch(true, ps[0], ss[0]);
        PlainMatch(false, ps[0], ss[0]);
      }
    }
  }

  lemma {:induction false} PlainSplit(q: string)
    requires '\\' !in q
    ensures ManualSplit(q) == Split(q) && Ended(q)
    ensures forall i | 0 <= i < |Split(q)| :: '\\' !in Split(q)[i]
  {
    if q != "" {
      assert q == [q[0]] + q[1..];
      PlainSplit(q[1..]);
    }
  }

  /** On newline-free paths the code reads segments like a manual without escapes. */
  lemma {:induction false} ReadsWithoutNewlines(ps: seq<string>, ss: Path)
    requires NoNewline(ss)
    ensures MatchSegs(ps, ss) <==> Reads(false, ps, ss)
    decreases |ps|
  {
    if ps != [] {
      forall j | 0 <= j <= |ss| ensures MatchSegs(ps[1..], ss[j..]) <==> Reads(false, ps[1..], ss[j..]) {
        ReadsWithoutNewlines(ps[1..], ss[j..]);
      }
      if ss != [] { PlainMatch(false, ps[0], ss[0]); }
    }
  }

  /** On newline-free paths a pattern is compiled to what is documented, if it is ASCII, has neither
      bracket expressions nor backslashes, and its double stars are whole segments. */
  lemma {:induction false} DocumentedWithoutNewlines(e: Engine, q: string, anchored: bool, ss: Path)
    requires EngineOk(e) && e(RegexText(Encode(q), anchored)).Some?
    requires NoClass(q) && Ascii(q) && '\\' !in q && WholeStars(Split(q))
    requires Ok(ss) && ss != [] && NoNewline(ss)
    ensures Accepts(e, RegexText(Encode(q), anchored), Join(ss)) <==> Documented(q, anchored, ss)
  {
    EncodeAscii(q);
    TextAccepts(e, q, anchored, Join(ss));
    CompilerPreservesMeaning(q, anchored, ss);
    ReadsWithoutNewlines(Segments(q, anchored), ss);
    PlainSplit(q);
    PlainReads(Segments(q, anchored), ss);
  }

  // ---------- Counting characters ----------

  function Count(p: char -> bool, s: string): nat {
    if s == "" then 0 else (if p(s[0]) then 1 else 0) + Count(p, s[1..])
  }

  predicate Slash(c: char) {
    c == '/'
  }

  predicate Back(c: char) {
    c == '\\'
  }

  lemma {:induction false} CountAppend(p: char -> bool, s: string, t: string)
    ensures Count(p, s + t) == Count(p, s) + Count(p, t)
  {
    if s == "" {
      assert s + t == t;
    } else {
      CountAppend(p, s[1..], t);
      assert (s + t)[1..] == s[1..] + t;
    }
  }

  lemma {:induction false} CountZero(p: char -> bool, s: string)
    ensures Count(p, s) == 0 <==> forall i | 0 <= i < |s| :: !p(s[i])
  {
    if s != "" {
      CountZero(p, s[1..]);
      assert s == [s[0]] + s[1..];
    }
  }

  lemma {:induction false} SplitCount(s: string)
    ensures |Split(s)| == 1 + Count(Slash, s)
  {
    if s != "" { SplitCount(s[1..]); }
  }

  // ---------- Newlines ----------

  /** How many segments hold a newline. */
  function Broken(ss: Path): nat {
    if ss == [] then 0 else (if '\n' in ss[0] then 1 else 0) + Broken(ss[1..])
  }

  /** How many segments are not `**`. */
  function Globs(ps: seq<string>): nat {
    if ps == [] then 0 else (if ps[0] != "**" then 1 else 0) + Globs(ps[1..])
  }

  lemma {:induction false} BrokenBehind(ss: Path, j: nat)
    requires j <= |ss| && NoNewline(ss[..j])
    ensures Broken(ss) == Broken(ss[j..])
  {
    if j > 0 {
      assert ss[..j][0] == ss[0] && ss[..j][1..] == ss[1..][..j - 1];
      NoNewlineTail(ss[..j]);
      BrokenBehind(ss[1..], j - 1);
      assert ss[1..][j - 1..] == ss[j..];
    } else {
      assert ss[0..] == ss;
    }
  }

  lemma {:induction false} NoNewlineTail(ss: Path)
    requires NoNewline(ss) && ss != []
    ensures NoNewline(ss[1..])
  {}

  /** Only a glob can match a segment that holds a newline. */
  lemma {:induction false} OnlyGlobsTakeNewlines(ps: seq<string>, ss: Path)
    requires MatchSegs(ps, ss)
    ensures Broken(ss) <= Globs(ps)
    decreases |ps|
  {
    if ps == [] {
    } else if ps[0] != "**" {
      OnlyGlobsTakeNewlines(ps[1..], ss[1..]);
    } else if |ps| == 1 {
      assert ss[..|ss|] == ss;
      BrokenBehind(ss, |ss|);
    } else {
      var j :| 0 <= j <= |ss| && NoNewline(ss[..j]) && MatchSegs(ps[1..], ss[j..]);
      BrokenBehind(ss, j);
      OnlyGlobsTakeNewlines(ps[1..], ss[j..]);
    }
  }

  /** A segment that a glob without a lone backslash matches. */
  function Example(esc: bool, p: string): string {
    if p == "" then ""
    else if esc && p[0] == '\\' && |p| > 1 then [p[1]] + Example(esc, p[2..])
    else [if p[0] == '*' || p[0] == '?' then 'x' else p[0]] + Example(esc, p[1..])
  }

  lemma {:induction false} ExampleMatches(esc: bool, p: string)
    requires !Dead(esc, p) || p == ""
    ensures GlobMatch(esc, p, Example(esc, p))
    ensures (p == "" <==> Example(esc, p) == "") && ('/' !in p ==> '/' !in Example(esc, p))
  {
    if p != "" {
      var s := Example(esc, p);
      assert p == [p[0]] + p[1..];
      if esc && p[0] == '\\' {
        ExampleMatches(esc, p[2..]);
        assert s[1..] == Example(esc, p[2..]) && p == p[..2] + p[2..];
      } else {
        ExampleMatches(esc, p[1..]);
        assert s[1..] == Example(esc, p[1..]);
        assert p[0] == '*' ==> GlobMatch(esc, p[1..], s[1..]);
      }
    }
  }

  function Newlines(n: nat): (ss: Path)
    ensures |ss| == n && forall i | 0 <= i < n :: ss[i] == "\n"
  {
    seq(n, _ => "\n")
  }

  /** A path that is read, with n segments that are newlines for every `**`. */
  function Crossing(esc: bool, ps: seq<string>, n: nat): Path {
    if ps == [] then []
    else (if ps[0] == "**" then Newlines(n) else [Example(esc, ps[0])]) + Crossing(esc, ps[1..], n)
  }

  lemma {:induction false} CrossingRead(esc: bool, ps: seq<string>, n: nat)
    requires n > 0 && forall i | 0 <= i < |ps| :: !Dead(esc, ps[i])
    ensures Reads(esc, ps, Crossing(esc, ps, n))
    decreases |ps|
  {
    if ps != [] {
      var ss, rest := Crossing(esc, ps, n), Crossing(esc, ps[1..], n);
      CrossingRead(esc, ps[1..], n);
      if ps[0] == "**" {
        assert ss[n..] == rest;
      } else {
        ExampleMatches(esc, ps[0]);
        assert ss[1..] == rest;
      }
    }
  }

  lemma {:induction false} CrossingShape(esc: bool, ps: seq<string>, n: nat)
    requires forall i | 0 <= i < |ps| :: !Dead(esc, ps[i]) && '/' !in ps[i]
    ensures Ok(Crossing(esc, ps, n))
    ensures "**" in ps ==> Broken(Crossing(esc, ps, n)) >= n
  {
    if ps != [] {
      var ss, rest := Crossing(esc, ps, n), Crossing(esc, ps[1..], n);
      assert ps == [ps[0]] + ps[1..];
      CrossingShape(esc, ps[1..], n);
      ExampleMatches(esc, ps[0]);
      if ps[0] == "**" {
        BrokenNewlines(n, rest);
      } else {
        assert ss[1..] == rest;
      }
    }
  }

  lemma {:induction false} BrokenNewlines(n: nat, rest: Path)
    ensures Broken(Newlines(n) + rest) >= n
  {
    var ss := Newlines(n) + rest;
    if n > 0 {
      BrokenNewlines(n - 1, rest);
      assert ss[1..] == Newlines(n - 1) + rest && '\n' in ss[0];
    }
  }

  lemma {:induction false} StarFreeReads(ps: seq<string>, ss: Path)
    requires "**" !in ps
    ensures MatchSegs(ps, ss) <==> Reads(false, ps, ss)
    decreases |ps|
  {
    if ps != [] {
      assert ps == [ps[0]] + ps[1..];
      if ss != [] {
        StarFreeReads(ps[1..], ss[1..]);
        PlainMatch(false, ps[0], ss[0]);
      }
    }
  }

  lemma {:induction false} EmptySegmentMatchesNothing(ps: seq<string>, ss: Path)
    requires "" in ps && Ok(ss)
    ensures !MatchSegs(ps, ss)
    decreases |ps|
  {
    if ps[0] == "**" {
      assert ps == [ps[0]] + ps[1..];
      forall j | 0 <= j <= |ss| ensures !MatchSegs(ps[1..], ss[j..]) {
        EmptySegmentMatchesNothing(ps[1..], ss[j..]);
      }
    } else if ps[0] != "" && ss != [] {
      assert ps == [ps[0]] + ps[1..];
      EmptySegmentMatchesNothing(ps[1..], ss[1..]);
    }
  }

  /** Segment by segment, a `**` of the code stops at newlines and the manual's does not: escapes
      apart, the two readings are the same exactly if there is no `**`, or an empty segment lets
      nothing match. */
  lemma {:induction false} StarsStopAtNewlines(ps: seq<string>)
    requires forall i | 0 <= i < |ps| :: '/' !in ps[i]
    ensures (forall ss: Path | Ok(ss) && ss != [] :: MatchSegs(ps, ss) <==> Reads(false, ps, ss))
            <==> "**" !in ps || "" in ps
  {
    if "**" in ps && "" !in ps {
      var n := Globs(ps) + 1;
      var ss := Crossing(false, ps, n);
      CrossingRead(false, ps, n);
      CrossingShape(false, ps, n);
      if MatchSegs(ps, ss) {
        OnlyGlobsTakeNewlines(ps, ss);
      }
      assert Ok(ss) && ss != [] && !MatchSegs(ps, ss);
    } else {
      forall ss: Path | Ok(ss) && ss != [] ensures MatchSegs(ps, ss) <==> Reads(false, ps, ss) {
        if "**" !in ps {
          StarFreeReads(ps, ss);
        } else {
          EmptySegmentMatchesNothing(ps, ss);
          var i :| 0 <= i < |ps| && ps[i] == "";
          DeadReadsNothing(false, ps, i, ss);
        }
      }
    }
  }

  // ---------- How many newlines the pieces can take ----------

  lemma {:induction false} FirstGrows(u: string, v: string)
    ensures Split(u)[0] <= Split(u + v)[0]
  {
    if u != "" {
      FirstGrows(u[1..], v);
      assert (u + v)[1..] == u[1..] + v;
    }
  }

  lemma {:induction false} BrokenAppend(u: string, v: string)
    ensures Broken(Split(u + v)) <= Broken(Split(u)) + Broken(Split(v))
  {
    if u == "" {
      assert u + v == v;
    } else {
      var w := u + v;
      assert w[1..] == u[1..] + v && w[0] == u[0];
      BrokenAppend(u[1..], v);
      FirstGrows(u[1..], v);
      BrokenCons(u);
      BrokenCons(w);
    }
  }

  lemma {:induction false} BrokenCons(u: string)
    requires u != ""
    ensures Broken(Split(u)) == Broken(Split(u[1..])) + if u[0] == '\n' && '\n' !in Split(u[1..])[0] then 1 else 0
  {
    var ps, rest := Split(u), Split(u[1..]);
    if u[0] == '/' {
      assert ps[1..] == rest;
    } else {
      assert ps[1..] == rest[1..] && ps[0] == [u[0]] + rest[0];
    }
  }

  lemma {:induction false} BrokenNot(u: string)
    requires '\n' !in u
    ensures Broken(Split(u)) == 0
  {
    if u != "" {
      assert u == [u[0]] + u[1..];
      BrokenNot(u[1..]);
      BrokenCons(u);
    }
  }

  /** The expressions the compiler emits. */
  predicate Emits(r: Regex) {
    r.Lit? || r == NotSlash || r == Star(NotSlash) || r == ANY || r == DIRS || r == PREFIX
  }

  lemma {:induction false} PiecesEmit(q: string, anchored: bool)
    ensures forall x | x in AllPieces(q, anchored) :: Emits(x)
  {
    if q != "" {
      PiecesEmit(q[Width(q)..], true);
      assert AllPieces(q[Width(q)..], true) == Pieces(q[Width(q)..]);
    }
  }

  lemma {:induction false} PieceTakesOne(r: Regex, u: string)
    requires Emits(r) && In(r, u)
    ensures Broken(Split(u)) <= 1
  {
    if r.Lit? || r == NotSlash {
      BrokenCons(u);
      assert u[1..] == "";
    } else if r == Star(NotSlash) {
      StarNotSlash(u);
      SplitWord(u);
    } else {
      StarAny(u);
      OptDirs(if r == DIRS then Plus(AnyChar) else Star(AnyChar), u);
      BrokenNot(u);
    }
  }

  /** Each piece takes newlines from one segment at most. */
  lemma {:induction false} PiecesTakeFew(rs: seq<Regex>, w: string)
    requires (forall x | x in rs :: Emits(x)) && InSeq(rs, w)
    ensures Broken(Split(w)) <= |rs|
    decreases |rs|
  {
    if rs != [] {
      var k :| 0 <= k <= |w| && In(rs[0], w[..k]) && InSeq(rs[1..], w[k..]);
      PieceTakesOne(rs[0], w[..k]);
      PiecesTakeFew(rs[1..], w[k..]);
      BrokenAppend(w[..k], w[k..]);
      assert w == w[..k] + w[k..];
    }
  }

  // ---------- A path the compiled pattern accepts ----------

  function Sample(q: string): string
    requires q != ""
  {
    if "/**/" <= q then "/x/x/"
    else if "**/" <= q then "x/x/"
    else if q == "/**" then "/x/x"
    else if "**" <= q then "x/x"
    else if q[0] == '*' || q[0] == '?' then "x"
    else [q[0]]
  }

  function Word(q: string): string {
    if q == "" then "" else Sample(q) + Word(q[Width(q)..])
  }

  lemma {:induction false} WordAccepted(q: string)
    ensures InSeq(Pieces(q), Word(q))
  {
    if q != "" {
      WordAccepted(q[Width(q)..]);
      SampleAccepted(q, Pieces(q[Width(q)..]), Word(q[Width(q)..]));
    }
  }

  lemma {:induction false} SampleAccepted(q: string, rs: seq<Regex>, v: string)
    requires q != "" && InSeq(rs, v)
    ensures InSeq(Step(q) + rs, Sample(q) + v)
  {
    if "/**/" <= q {
      DirsAccepted("x/x/", rs, v);
      SlashAccepted(DIRS, "x/x/", rs, v);
      assert Step(q) == [Lit('/'), DIRS] && Sample(q) == "/" + "x/x/";
    } else if "**/" <= q {
      DirsAccepted("x/x/", rs, v);
    } else if q == "/**" {
      AnyAccepted("x/x", rs, v);
      SlashAccepted(ANY, "x/x", rs, v);
      assert Step(q) == [Lit('/'), ANY] && Sample(q) == "/" + "x/x";
    } else if "**" <= q {
      AnyAccepted("x/x", rs, v);
    } else {
      CharAccepted(q[0], rs, v);
    }
  }

  lemma {:induction false} SlashAccepted(r: Regex, u: string, rs: seq<Regex>, v: string)
    requires InSeq([r] + rs, u + v)
    ensures InSeq([Lit('/'), r] + rs, "/" + u + v)
  {
    InSeqIntro(Lit('/'), [r] + rs, ['/'], u + v);
    assert [Lit('/')] + ([r] + rs) == [Lit('/'), r] + rs;
    assert ['/'] + (u + v) == "/" + u + v;
  }

  lemma {:induction false} DirsAccepted(u: string, rs: seq<Regex>, v: string)
    requires |u| > 1 && u[|u| - 1] == '/' && '\n' !in u && InSeq(rs, v)
    ensures InSeq([DIRS] + rs, u + v)
  {
    OptDirs(Plus(AnyChar), u);
    InSeqIntro(DIRS, rs, u, v);
  }

  lemma {:induction false} AnyAccepted(u: string, rs: seq<Regex>, v: string)
    requires '\n' !in u && InSeq(rs, v)
    ensures InSeq([ANY] + rs, u + v)
  {
    StarAny(u);
    InSeqIntro(ANY, rs, u, v);
  }

  lemma {:induction false} CharAccepted(c: char, rs: seq<Regex>, v: string)
    requires InSeq(rs, v)
    ensures InSeq([OneCharPiece(c)] + rs, [if c == '*' || c == '?' then 'x' else c] + v)
  {
    var u := [if c == '*' || c == '?' then 'x' else c];
    StarNotSlash(u);
    InSeqIntro(OneCharPiece(c), rs, u, v);
  }

  // ---------- Stars inside a longer segment ----------

  /** Every slash has something other than a slash behind it. */
  predicate Tidy(q: string) {
    forall i | 0 <= i < |q| && q[i] == '/' :: i + 1 < |q| && q[i + 1] != '/'
  }

  predicate Spaced(s: string) {
    forall i | 0 <= i < |s| - 1 && s[i] == '/' :: s[i + 1] != '/'
  }

  lemma {:induction false} TidySplit(q: string)
    ensures Tidy(q) <==> "" !in Split(q)[1..]
    ensures Split(q)[0] == "" <==> q == "" || q[0] == '/'
  {
    if q != "" {
      var q', ps := q[1..], Split(q);
      TidySplit(q');
      var ps' := Split(q');
      assert ps' == [ps'[0]] + ps'[1..];
      assert q == [q[0]] + q';
      if q[0] == '/' {
        assert ps[1..] == ps';
        assert Tidy(q) <==> Tidy(q') && q' != "" && q'[0] != '/' by {
          if Tidy(q) { assert forall i | 0 <= i < |q'| :: q'[i] == q[i + 1]; }
        }
      } else {
        assert ps[1..] == ps'[1..];
        assert Tidy(q) <==> Tidy(q') by {
          if Tidy(q) { assert forall i | 0 <= i < |q'| :: q'[i] == q[i + 1]; }
        }
      }
    }
  }

  lemma {:induction false} WordTidy(q: string)
    requires Tidy(q)
    ensures Tidy(Word(q)) && (Word(q) == "" <==> q == "")
    ensures q != "" ==> (Word(q)[0] == '/' <==> q[0] == '/')
  {
    if q != "" {
      var rest := q[Width(q)..];
      assert Tidy(rest);
      WordTidy(rest);
      SampleTidy(q);
      TidyAppend(Sample(q), Word(rest));
    }
  }

  lemma {:induction false} SampleTidy(q: string)
    requires q != ""
    ensures var s := Sample(q);
      && s != "" && Spaced(s)
      && (s[0] == '/' <==> q[0] == '/')
      && (s[|s| - 1] == '/' ==> q[Width(q) - 1] == '/')
  {}

  lemma {:induction false} TidyAppend(s: string, t: string)
    requires s != "" && Spaced(s) && Tidy(t)
    requires s[|s| - 1] == '/' ==> t != "" && t[0] != '/'
    ensures Tidy(s + t)
  {}

  lemma {:induction false} WordCounts(q: string)
    ensures Count(Slash, Word(q)) >= Count(Slash, q)
    ensures HasStars(q) ==> Count(Slash, Word(q)) > Count(Slash, q)
    ensures Count(High, Word(q)) == Count(High, q)
  {
    if q != "" {
      var n := Width(q);
      WordCounts(q[n..]);
      CountAppend(Slash, Sample(q), Word(q[n..]));
      CountAppend(High, Sample(q), Word(q[n..]));
      assert q == q[..n] + q[n..];
      CountAppend(Slash, q[..n], q[n..]);
      CountAppend(High, q[..n], q[n..]);
      SampleCounts(q);
    }
  }

  lemma {:induction false} SampleCounts(q: string)
    requires q != ""
    ensures var n := Width(q);
      && Count(Slash, Sample(q)) >= Count(Slash, q[..n]) + (if n > 1 then 1 else 0)
      && Count(High, Sample(q)) == Count(High, q[..n])
      && (n == 1 && HasStars(q) ==> HasStars(q[1..]))
  {
    LiteralCounts();
    var n := Width(q);
    if n > 1 {
      assert q[..n] == if "/**/" <= q then "/**/" else if "**/" <= q then "**/" else if q == "/**" then "/**" else "**";
    } else {
      assert q[..1] == [q[0]];
      assert q[..1][1..] == "" && Sample(q)[1..] == "";
      if HasStars(q) {
        SliceTests(q, 0);
        assert q[0..] == q;
      }
    }
  }

  lemma {:induction false} LiteralCounts()
    ensures Count(Slash, "/**/") == 2 && Count(Slash, "/x/x/") == 3
    ensures Count(Slash, "**/") == 1 && Count(Slash, "x/x/") == 2
    ensures Count(Slash, "/**") == 1 && Count(Slash, "/x/x") == 2
    ensures Count(Slash, "**") == 0 && Count(Slash, "x/x") == 1
    ensures Count(High, "/**/") == 0 && Count(High, "/x/x/") == 0
    ensures Count(High, "**/") == 0 && Count(High, "x/x/") == 0
    ensures Count(High, "/**") == 0 && Count(High, "/x/x") == 0
    ensures Count(High, "**") == 0 && Count(High, "x/x") == 0
  {}

  lemma {:induction false} NoStarsInside(q: string)
    requires !HasStars(q)
    ensures WholeStars(Split(q))
  {
    forall i | 0 <= i < |Split(q)| ensures !HasStars(Split(q)[i]) {
      if HasStars(Split(q)[i]) { SegmentStars(q, i); }
    }
  }

  lemma {:induction false} SegmentStars(q: string, i: nat)
    requires i < |Split(q)| && HasStars(Split(q)[i])
    ensures HasStars(q)
  {
    if q != "" {
      var q', ps, ps' := q[1..], Split(q), Split(q[1..]);
      if q[0] == '/' {
        SegmentStars(q', i - 1);
      } else if i > 0 {
        SegmentStars(q', i);
      } else {
        var u := ps[0];
        var k :| 0 <= k < |u| - 1 && u[k] == '*' && u[k + 1] == '*';
        FirstSegment(q');
        if k > 0 {
          assert ps'[0][k - 1] == '*' && ps'[0][k - 1 + 1] == '*';
          SegmentStars(q', 0);
        } else {
          assert q[0] == '*' && q[0 + 1] == '*';
        }
      }
      if HasStars(q') {
        var k :| 0 <= k < |q'| - 1 && q'[k] == '*' && q'[k + 1] == '*';
        assert q[k + 1] == '*' && q[k + 1 + 1] == '*';
      }
    }
  }

  lemma {:induction false} FirstSegment(q: string)
    ensures Split(q)[0] <= q
  {
    if q != "" { FirstSegment(q[1..]); }
  }

  lemma {:induction false} StarFreeLength(esc: bool, ps: seq<string>, ss: Path)
    requires "**" !in ps && Reads(esc, ps, ss)
    ensures |ss| == |ps|
    decreases |ps|
  {
    if ps != [] {
      assert ps == [ps[0]] + ps[1..];
      StarFreeLength(esc, ps[1..], ss[1..]);
    }
  }

  /** The compiled pattern accepts the path, which is longer or shorter than the pattern. */
  ghost predicate AcceptsOtherLength(e: Engine, q: string, ss: Path) {
    Ok(ss) && ss != [] && |ss| != |Split(q)| && Accepts(e, RegexText(q, true), Join(ss))
  }

  /** Stars inside a longer segment cross directories: a compiled pattern whose `**` never is a
      segment of its own accepts a path of another number of segments exactly if it holds two
      adjacent stars. */
  lemma {:induction false} EmbeddedStarsCrossDirectories(e: Engine, q: string)
    requires EngineOk(e) && e(RegexText(q, true)).Some? && NoClass(q)
    requires "**" !in Split(q) && "" !in Split(q)
    ensures (exists ss: Path :: AcceptsOtherLength(e, q, ss)) <==> HasStars(q)
  {
    if HasStars(q) {
      var ss := StarsCross(q);
      TextAccepts(e, q, true, Join(ss));
      assert AcceptsOtherLength(e, q, ss);
    } else {
      forall ss: Path ensures !AcceptsOtherLength(e, q, ss) {
        if Ok(ss) && ss != [] {
          TextAccepts(e, q, true, Join(ss));
          SameLength(q, ss);
        }
      }
    }
  }

  lemma {:induction false} SameLength(q: string, ss: Path)
    requires !HasStars(q) && "**" !in Split(q) && Ok(ss) && ss != []
    ensures InSeq(AllPieces(q, true), Join(ss)) ==> |ss| == |Split(q)|
  {
    NoStarsInside(q);
    CompilerPreservesMeaning(q, true, ss);
    assert Segments(q, true) == Split(q);
    StarFreeReads(Split(q), ss);
    if Reads(false, Split(q), ss) { StarFreeLength(false, Split(q), ss); }
  }

  lemma {:induction false} StarsCross(q: string) returns (ss: Path)
    requires HasStars(q) && "" !in Split(q)
    ensures Ok(ss) && ss != [] && |ss| > |Split(q)| && InSeq(AllPieces(q, true), Join(ss))
  {
    ss := WordPath(q);
    WordAccepted(q);
    PrefixEmpty(q, true, Word(q));
    WordCounts(q);
    SplitCount(q);
    SplitCount(Word(q));
  }

  lemma {:induction false} WordPath(q: string) returns (ss: Path)
    requires "" !in Split(q)
    ensures Ok(ss) && ss != [] && Join(ss) == Word(q) && ss == Split(Word(q))
  {
    ss := Split(Word(q));
    assert Split(q) == [Split(q)[0]] + Split(q)[1..] && ss == [ss[0]] + ss[1..];
    TidySplit(q);
    WordTidy(q);
    TidySplit(Word(q));
  }

  // ---------- Literals ----------

  function Literals(p: char -> bool, rs: seq<Regex>): nat {
    if rs == [] then 0 else (if rs[0].Lit? && p(rs[0].c) then 1 else 0) + Literals(p, rs[1..])
  }

  lemma {:induction false} LiteralsNeeded(p: char -> bool, rs: seq<Regex>, w: string)
    requires InSeq(rs, w)
    ensures Count(p, w) >= Literals(p, rs)
    decreases |rs|
  {
    if rs != [] {
      var k :| 0 <= k <= |w| && In(rs[0], w[..k]) && InSeq(rs[1..], w[k..]);
      LiteralsNeeded(p, rs[1..], w[k..]);
      assert w == w[..k] + w[k..];
      CountAppend(p, w[..k], w[k..]);
    }
  }

  /** None of the characters that patterns give a meaning to. */
  predicate Ordinary(p: char -> bool) {
    !p('*') && !p('?') && !p('/')
  }

  lemma {:induction false} PiecesLiterals(p: char -> bool, q: string)
    requires Ordinary(p)
    ensures Literals(p, Pieces(q)) == Count(p, q)
  {
    if q != "" {
      var n := Width(q);
      PiecesLiterals(p, q[n..]);
      assert q == q[..n] + q[n..];
      CountAppend(p, q[..n], q[n..]);
      LiteralsAppend(p, Step(q), Pieces(q[n..]));
      StepLiterals(p, q);
    }
  }

  lemma {:induction false} StepLiterals(p: char -> bool, q: string)
    requires q != "" && Ordinary(p)
    ensures Literals(p, Step(q)) == Count(p, q[..Width(q)])
  {
    var step, u := Step(q), q[..Width(q)];
    assert step[1..] == if |step| == 1 then [] else [step[1]];
    if Width(q) == 1 {
      assert u == [q[0]] && u[1..] == "";
    } else {
      assert forall i | 0 <= i < |u| :: u[i] == '*' || u[i] == '/';
      CountZero(p, u);
      assert |step| == 2 ==> step[1..][1..] == [];
    }
  }

  lemma {:induction false} LiteralsAppend(p: char -> bool, xs: seq<Regex>, ys: seq<Regex>)
    ensures Literals(p, xs + ys) == Literals(p, xs) + Literals(p, ys)
  {
    if xs == [] {
      assert xs + ys == ys;
    } else {
      LiteralsAppend(p, xs[1..], ys);
      assert (xs + ys)[1..] == xs[1..] + ys;
    }
  }

  /** A word without enough of some characters of the pattern is not accepted. */
  lemma {:induction false} TooFew(p: char -> bool, b: string, anchored: bool, w: string)
    requires Ordinary(p) && Count(p, w) < Count(p, b)
    ensures !InSeq(AllPieces(b, anchored), w)
  {
    var rs := AllPieces(b, anchored);
    if InSeq(rs, w) {
      LiteralsNeeded(p, rs, w);
      LiteralsAppend(p, if anchored then [] else [PREFIX], Pieces(b));
      PiecesLiterals(p, b);
    }
  }

  lemma {:induction false} EncodedCount(q: string)
    ensures Count(High, Encode(q)) >= 2 * Count(High, q)
  {
    if q != "" {
      var b := EncodeChar(q[0]);
      EncodedCount(q[1..]);
      CountAppend(High, b, Encode(q[1..]));
      if High(q[0]) { assert b[1..][0] == b[1]; }
    }
  }

  lemma {:induction false} EncodedBacks(q: string)
    ensures Count(Back, Encode(q)) == Count(Back, q)
  {
    if q != "" {
      var b := EncodeChar(q[0]);
      EncodedBacks(q[1..]);
      CountAppend(Back, b, Encode(q[1..]));
      if High(q[0]) { CountZero(Back, b); } else { assert b[1..] == ""; }
    }
  }

  lemma {:induction false} EncodedHas(c: char, q: string)
    requires !High(c)
    ensures c in Encode(q) <==> c in q
  {
    if q != "" {
      EncodedHas(c, q[1..]);
      assert q == [q[0]] + q[1..];
      assert c in EncodeChar(q[0]) <==> c == q[0];
    }
  }

  lemma {:induction false} EncodedNoClass(q: string)
    requires NoClass(q)
    ensures NoClass(Encode(q))
  {
    if q != "" {
      var b, rest := EncodeChar(q[0]), Encode(q[1..]);
      EncodedNoClass(q[1..]);
      EncodedHas(']', q[1..]);
      if q[0] == '[' { assert ']' !in q[1..]; }
      assert forall i | 0 <= i < |b| :: b[i] == '[' ==> q[0] == '[';
      NoClassAppend(b, rest);
    }
  }

  lemma {:induction false} NoClassAppend(b: string, rest: string)
    requires NoClass(b) && NoClass(rest) && ('[' in b ==> ']' !in rest)
    ensures NoClass(b + rest)
  {}

  lemma {:induction false} EncodedTidy(q: string)
    requires Tidy(q)
    ensures Tidy(Encode(q)) && (Encode(q) == "" <==> q == "")
    ensures q != "" ==> (Encode(q)[0] == '/' <==> q[0] == '/')
  {
    if q != "" {
      assert Tidy(q[1..]);
      EncodedTidy(q[1..]);
      TidyAppend(EncodeChar(q[0]), Encode(q[1..]));
    }
  }

  lemma {:induction false} EncodedSegments(q: string)
    requires "" !in Split(q)
    ensures "" !in Split(Encode(q))
  {
    assert Split(q) == [Split(q)[0]] + Split(q)[1..];
    TidySplit(q);
    EncodedTidy(q);
    TidySplit(Encode(q));
    assert Split(Encode(q)) == [Split(Encode(q))[0]] + Split(Encode(q))[1..];
  }

  /** The bytes of a line are taken for characters one by one: a pattern with no empty segment
      accepts the paths its characters should exactly if all of them are ASCII. */
  lemma {:induction false} BytesTakenForCharacters(e: Engine, q: string, anchored: bool)
    requires EngineOk(e) && e(RegexText(Encode(q), anchored)).Some? && NoClass(q) && "" !in Split(q)
    ensures (forall ss: Path | Ok(ss) && ss != [] ::
               Accepts(e, RegexText(Encode(q), anchored), Join(ss)) <==> InSeq(AllPieces(q, anchored), Join(ss)))
            <==> Ascii(q)
  {
    EncodedNoClass(q);
    forall ss: Path
      ensures Accepts(e, RegexText(Encode(q), anchored), Join(ss)) <==> InSeq(AllPieces(Encode(q), anchored), Join(ss))
    {
      TextAccepts(e, Encode(q), anchored, Join(ss));
    }
    if Ascii(q) {
      EncodeAscii(q);
    } else {
      var ss := WordPath(q);
      WordAccepted(q);
      PrefixEmpty(q, anchored, Word(q));
      Misread(q, anchored);
    }
  }

  lemma {:induction false} Misread(q: string, anchored: bool)
    requires !Ascii(q)
    ensures !InSeq(AllPieces(Encode(q), anchored), Word(q))
  {
    EncodedCount(q);
    WordCounts(q);
    CountZero(High, q);
    TooFew(High, Encode(q), anchored, Word(q));
  }

  lemma {:induction false} PrefixEmpty(q: string, anchored: bool, w: string)
    requires InSeq(Pieces(q), w)
    ensures InSeq(AllPieces(q, anchored), w)
  {
    if anchored {
      assert AllPieces(q, anchored) == Pieces(q);
    } else {
      InSeqIntro(PREFIX, Pieces(q), "", w);
      assert "" + w == w;
    }
  }

  // ---------- The patterns compiled to what is documented ----------

  function Examples(ps: seq<string>): Path {
    if ps == [] then [] else [Example(true, ps[0])] + Examples(ps[1..])
  }

  lemma {:induction false} CrossingExamples(ps: seq<string>, n: nat)
    requires "**" !in ps
    ensures Crossing(true, ps, n) == Examples(ps)
  {
    if ps != [] {
      assert ps == [ps[0]] + ps[1..];
      CrossingExamples(ps[1..], n);
    }
  }

  lemma {:induction false} JoinPush(u: string, a: string, ss: Path)
    ensures Join([u + a] + ss) == u + Join([a] + ss)
  {
    if ss != [] {
      JoinCons(u + a, ss);
      JoinCons(a, ss);
      Assoc(u, a, "/" + Join(ss));
    }
  }

  /** The examples of the segments, joined, are the example of the pattern. */
  lemma {:induction false} ExamplesJoin(q: string)
    ensures Join(Examples(ManualSplit(q))) == Example(true, q)
  {
    if q != "" {
      var ps := ManualSplit(q);
      var u := if q[0] == '\\' && |q| > 1 then q[..2] else q[..1];
      var tail := q[|u|..];
      var rest := ManualSplit(tail);
      ExamplesJoin(tail);
      ExampleStep(u, tail);
      assert q == u + tail && rest == [rest[0]] + rest[1..];
      if u[|u| - 1] == '/' {
        assert ps == [""] + rest && ps[1..] == rest;
        JoinCons("", Examples(rest));
      } else {
        assert ps[1..] == rest[1..] && ps[0] == u + rest[0];
        ExampleStep(u, rest[0]);
        JoinPush(Example(true, u), Example(true, rest[0]), Examples(rest[1..]));
      }
    }
  }

  lemma {:induction false} ExampleStep(u: string, r: string)
    requires |u| == 1 || (|u| == 2 && u[0] == '\\')
    requires u == "\\" ==> r == ""
    ensures Example(true, u + r) == Example(true, u) + Example(true, r)
  {
    assert (u + r)[|u|..] == r && u[|u|..] == "";
  }

  lemma {:induction false} ExampleCounts(q: string)
    ensures Count(High, Example(true, q)) <= Count(High, q)
    ensures Ended(q) ==> Count(Back, Example(true, q)) <= Count(Back, q)
    ensures Ended(q) && '\\' in q ==> Count(Back, Example(true, q)) < Count(Back, q)
  {
    if q != "" {
      assert q == [q[0]] + q[1..];
      if q[0] == '\\' && |q| > 1 {
        ExampleCounts(q[2..]);
        assert q[1..][1..] == q[2..];
      } else {
        ExampleCounts(q[1..]);
      }
    }
  }

  /** Every other pattern departs on some path. */
  lemma {:induction false} Departs(q: string, anchored: bool) returns (ss: Path)
    requires "" !in Split(q) && !(anchored && !HasStars(q) && Ascii(q) && '\\' !in q)
    ensures Ok(ss) && ss != []
    ensures !(InSeq(AllPieces(Encode(q), anchored), Join(ss)) <==> Documented(q, anchored, ss))
  {
    var ps := ManualSegments(q, anchored);
    if i :| 0 <= i < |ManualSplit(q)| && Dead(true, ManualSplit(q)[i]) {
      ss := NothingDocumented(q, anchored, i);
    } else if "**" in ps {
      ss := NewlinesMissed(q, anchored);
    } else if '\\' in q || !Ascii(q) {
      ss := CharactersMissed(q);
    } else {
      EncodeAscii(q);
      PlainSplit(q);
      ss := StarsCross(q);
      if Documented(q, anchored, ss) { StarFreeLength(true, ps, ss); }
    }
  }

  /** A segment that matches nothing in the manual is compiled to one that matches something. */
  lemma {:induction false} NothingDocumented(q: string, anchored: bool, i: nat) returns (ss: Path)
    requires "" !in Split(q) && i < |ManualSplit(q)| && Dead(true, ManualSplit(q)[i])
    ensures Ok(ss) && ss != []
    ensures InSeq(AllPieces(Encode(q), anchored), Join(ss)) && !Documented(q, anchored, ss)
  {
    var b := Encode(q);
    EncodedSegments(q);
    ss := WordPath(b);
    WordAccepted(b);
    PrefixEmpty(b, anchored, Word(b));
    DeadReadsNothing(true, ManualSegments(q, anchored), if anchored then i else i + 1, ss);
  }

  /** A `**`, as of every unanchored pattern, misses paths with too many newlines. */
  lemma {:induction false} NewlinesMissed(q: string, anchored: bool) returns (ss: Path)
    requires forall i | 0 <= i < |ManualSplit(q)| :: !Dead(true, ManualSplit(q)[i])
    requires "**" in ManualSegments(q, anchored)
    ensures Ok(ss) && ss != []
    ensures Documented(q, anchored, ss) && !InSeq(AllPieces(Encode(q), anchored), Join(ss))
  {
    var ps, rs := ManualSegments(q, anchored), AllPieces(Encode(q), anchored);
    StarsAlive(true);
    ss := Crossing(true, ps, |rs| + 1);
    CrossingRead(true, ps, |rs| + 1);
    CrossingShape(true, ps, |rs| + 1);
    SplitJoin(ss);
    if InSeq(rs, Join(ss)) {
      PiecesEmit(Encode(q), anchored);
      PiecesTakeFew(rs, Join(ss));
    }
  }

  /** Backslashes and the bytes of other characters are asked for literally. */
  lemma {:induction false} CharactersMissed(q: string) returns (ss: Path)
    requires forall i | 0 <= i < |ManualSplit(q)| :: !Dead(true, ManualSplit(q)[i])
    requires "**" !in ManualSplit(q) && ('\\' in q || !Ascii(q))
    ensures Ok(ss) && ss != []
    ensures Documented(q, true, ss) && !InSeq(AllPieces(Encode(q), true), Join(ss))
  {
    var ps := ManualSplit(q);
    assert ManualSegments(q, true) == ps;
    ss := Crossing(true, ps, 1);
    CrossingRead(true, ps, 1);
    CrossingShape(true, ps, 1);
    CrossingExamples(ps, 1);
    ExamplesJoin(q);
    EndedSplit(q);
    ExampleCounts(q);
    if '\\' in q {
      EncodedBacks(q);
      TooFew(Back, Encode(q), true, Join(ss));
    } else {
      EncodedCount(q);
      CountZero(High, q);
      TooFew(High, Encode(q), true, Join(ss));
    }
  }

  /** A line's pattern without bracket expressions and empty segments, of characters q, is compiled to
      what is documented, on all paths, exactly if it is anchored, ASCII, and holds neither two
      adjacent stars nor a backslash. */
  lemma {:induction false} CompiledAsDocumented(e: Engine, q: string, anchored: bool)
    requires EngineOk(e) && e(RegexText(Encode(q), anchored)).Some? && NoClass(q) && "" !in Split(q)
    ensures (forall ss: Path | Ok(ss) && ss != [] ::
               Accepts(e, RegexText(Encode(q), anchored), Join(ss)) <==> Documented(q, anchored, ss))
            <==> anchored && !HasStars(q) && Ascii(q) && '\\' !in q
  {
    EncodedNoClass(q);
    if anchored && !HasStars(q) && Ascii(q) && '\\' !in q {
      forall ss: Path | Ok(ss) && ss != []
        ensures Accepts(e, RegexText(Encode(q), anchored), Join(ss)) <==> Documented(q, anchored, ss)
      {
        TextAccepts(e, Encode(q), anchored, Join(ss));
        Agrees(q, ss);
      }
    } else {
      var ss := Departs(q, anchored);
      TextAccepts(e, Encode(q), anchored, Join(ss));
    }
  }

  lemma {:induction false} Agrees(q: string, ss: Path)
    requires !HasStars(q) && Ascii(q) && '\\' !in q && Ok(ss) && ss != []
    ensures InSeq(AllPieces(Encode(q), true), Join(ss)) <==> Documented(q, true, ss)
  {
    EncodeAscii(q);
    NoStarsInside(q);
    DoubleStar();
    assert "**" !in Split(q) by { if i :| 0 <= i < |Split(q)| && Split(q)[i] == "**" { SegmentStars(q, i); } }
    CompilerPreservesMeaning(q, true, ss);
    StarFreeReads(Split(q), ss);
    PlainSplit(q);
    PlainReads(Split(q), ss);
    assert Segments(q, true) == Split(q) && ManualSegments(q, true) == Split(q);
  }

  // ---------- Examples ----------

  /** The line `a**b` ignores ax/yb; */
  lemma {:induction false} EmbeddedStarsExample()
    ensures InSeq(AllPieces("a**b", false), Join(["ax", "yb"]))
    ensures !Documented("a**b", false, ["ax", "yb"])
  {
    assert Join(["ax", "yb"]) == "ax/yb" by { JoinCons("ax", ["yb"]); assert ["ax"] + ["yb"] == ["ax", "yb"]; }
    assert ['a'] + (['*', '*'] + ['b']) == "a**b";
    EmbeddedStarsAccept("a**b", "x/y");
    assert "" + (['a'] + ("x/y" + (['b'] + []))) == "ax/yb";
    EmbeddedStarsNotDocumented();
  }

  lemma {:induction false} EmbeddedStarsNotDocumented()
    ensures !Documented("a**b", false, ["ax", "yb"])
  {
    PlainSplit("a**b");
    SplitWord("a**b");
    NotDocumented("a**b", "ax", "yb");
  }

  lemma {:induction false} NotDocumented(p: string, s: string, t: string)
    requires ManualSplit(p) == [p] && p != "**" && !GlobMatch(true, p, t)
    ensures !Documented(p, false, [s, t])
  {
    var ps, ss := ["**"] + [p], [s, t];
    assert ManualSegments(p, false) == ps && ps[1..] == [p];
    forall j | 0 <= j <= 2 ensures !Reads(true, [p], ss[j..]) {
      LastSegment(p, ss[j..]);
    }
  }

  lemma {:induction false} LastSegment(p: string, ss: Path)
    requires p != "**"
    ensures Reads(true, [p], ss) <==> |ss| == 1 && GlobMatch(true, p, ss[0])
  {}

  lemma {:induction false} EmbeddedStarsAccept(p: string, mid: string)
    requires p == ['a'] + (['*', '*'] + ['b']) && '\n' !in mid
    ensures InSeq(AllPieces(p, false), "" + (['a'] + (mid + (['b'] + []))))
  {
    EmbeddedStarsPieces(p);
    StarAny(mid);
    var end: string, b := [], [Lit('b')] + [];
    InSeqIntro(Lit('b'), [], ['b'], end);
    InSeqIntro(ANY, b, mid, ['b'] + end);
    InSeqIntro(Lit('a'), [ANY] + b, ['a'], mid + (['b'] + end));
    InSeqIntro(PREFIX, Pieces(p), end, ['a'] + (mid + (['b'] + end)));
  }

  lemma {:induction false} EmbeddedStarsPieces(p: string)
    requires p == ['a'] + (['*', '*'] + ['b'])
    ensures Pieces(p) == [Lit('a')] + ([ANY] + ([Lit('b')] + []))
  {
    var p1, p2 := ['*', '*'] + ['b'], ['b'];
    assert Pieces(p2) == [Lit('b')] + [] by { assert p2[1..] == ""; }
    assert Pieces(p1) == [ANY] + Pieces(p2) by {
      SliceTests(p1, 0);
      assert p1[0..] == p1 && p1[2..] == p2;
    }
    assert Pieces(p) == [Lit('a')] + Pieces(p1) by {
      SliceTests(p, 0);
      assert p[0..] == p && p[1..] == p1;
    }
  }

  // a leading `**` does not reach the file b in a directory x whose name holds a newline;
  lemma {:induction false} BelowBrokenDirectory(x: string, b: string)
    requires '\n' in x && '/' !in x && x != b && b != ""
    requires forall i | 0 <= i < |b| :: b[i] !in ['*', '?', '/', '\\']
    ensures Documented(Join(["**", b]), true, [x, b])
    ensures !InSeq(AllPieces(Join(["**", b]), true), Join([x, b]))
  {
    var ps, ss, q := ["**", b], [x, b], Join(["**", b]);
    SplitJoin(ps);
    PlainGlob(b, b);
    PlainGlob(b, x);
    assert !HasStars(b) && ps[1] != "**";
    CompilerPreservesMeaning(q, true, ss);
    assert Segments(q, true) == ps;
    assert q == "**" + "/" + b;
    PlainSplit(q);
    assert ManualSegments(q, true) == ps;
    PlainMatch(true, b, b);
    StarsStop(ps, ss);
  }

  lemma {:induction false} StarsStop(ps: seq<string>, ss: Path)
    requires |ps| == 2 && ps[0] == "**" && ps[1] != "**" && |ss| == 2 && '\n' in ss[0]
    requires GlobMatch(true, ps[1], ss[1]) && !SegMatch(ps[1], ss[0])
    ensures Reads(true, ps, ss) && !MatchSegs(ps, ss)
  {
    assert ps[1..] == [ps[1]] && ss[1..] == [ss[1]] && ss[0..] == ss;
    LastSegment(ps[1], ss[1..]);
    forall j | 0 < j <= 2 ensures !NoNewline(ss[..j]) {
      assert ss[..j][0] == ss[0];
    }
  }

  /** a line of an escaped character does not match that character; */
  lemma {:induction false} EscapedCharacterMissed(e: Engine, c: char, isDir: bool)
    requires EngineOk(e) && !High(c) && c !in ['#', '!', ' ', '\t', '/']
    ensures LineSays(e, ['\\', c], [c], isDir) == NoMatch && Documented(['\\', c], false, [[c]])
  {
    var q, w := ['\\', c], [c];
    assert ParseLine(q) == Some(Line(q, false, false, false)) by { assert TrimRight(q) == q; }
    assert q[1..] == [c] && w[1..] == "" && q[1..][1..] == "";
    TooFew(Back, q, false, w);
    if e(RegexText(q, false)).Some? { TextAccepts(e, q, false, w); }
    EscapedRead(q, w);
  }

  lemma {:induction false} EscapedRead(q: string, w: string)
    requires |q| == 2 && q[0] == '\\' && q[1] != '/' && w == [q[1]]
    ensures Documented(q, false, [w])
  {
    var ps, ss := ["**"] + [q], [w];
    assert q[2..] == "" && w[1..] == "" && ManualSplit("") == [""] && q[..2] + "" == q;
    assert GlobMatch(true, q, w);
    assert ManualSegments(q, false) == ps && ps[1..] == [q] && ss[0..] == ss;
    LastSegment(q, ss[0..]);
  }

  /** a line of one character that is not ASCII never matches that character. */
  lemma {:induction false} HighCharacterMissed(e: Engine, c: char, isDir: bool)
    requires EngineOk(e) && High(c)
    ensures LineSays(e, Encode([c]), [c], isDir) == NoMatch
  {
    var q, line := [c], Encode([c]);
    OneEncoded(c);
    HighLine(line);
    if e(RegexText(line, false)).Some? { TextAccepts(e, line, false, q); }
    OneWord(c);
    Misread(q, false);
  }

  lemma {:induction false} OneWord(c: char)
    requires High(c)
    ensures Word([c]) == [c]
  {
    assert [c][Width([c])..] == "" && Word("") == "";
  }

  lemma {:induction false} HighLine(line: string)
    requires line != "" && forall i | 0 <= i < |line| :: High(line[i])
    ensures ParseLine(line) == Some(Line(line, false, false, false)) && NoClass(line)
  {
    forall x | x in line ensures High(x) {
      var i :| 0 <= i < |line| && line[i] == x;
    }
    assert !High('/') && High(line[0]) && High(line[|line| - 1]);
    assert TrimRight(line) == line;
  }

  lemma {:induction false} OneEncoded(c: char)
    ensures Encode([c]) == EncodeChar(c)
  {
    assert [c][1..] == "" && Encode("") == "";
  }
}
