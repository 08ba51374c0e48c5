/** The fragment of Go's regular-expression syntax that the ignore-rule compiler emits:
    an abstract syntax, its concrete text, a parser for that text, and what a regex accepts. */
module Regex {
  import opened Seqs
  import opened Wrappers

  datatype Regex =
    | Lit(c: char)          // one given character
    | AnyChar               // `.`: any character but a newline
    | NotSlash              // `[^/]`
    | Star(a: Regex)
    | Plus(a: Regex)
    | Opt(rs: seq<Regex>)   // `( ... )?`

  // ---------- Meaning ----------

  /** The word w is in the language of r. */
  predicate In(r: Regex, w: string)
    decreases r, |w|
  {
    match r
    case Lit(c) => w == [c]
    case AnyChar => |w| == 1 && w[0] != '\n'
    case NotSlash => |w| == 1 && w[0] != '/'
    case Star(a) => w == "" || exists k | 0 < k <= |w| :: In(a, w[..k]) && In(r, w[k..])
    case Plus(a) => In(a, w) || exists k | 0 < k < |w| :: In(a, w[..k]) && In(r, w[k..])
    case Opt(rs) => w == "" || InSeq(rs, w)
  }

  /** The word w is in the language of the concatenation of rs. */
  predicate InSeq(rs: seq<Regex>, w: string)
    decreases rs, |w|
  {
    if rs == [] then w == ""
    else exists k | 0 <= k <= |w| :: In(rs[0], w[..k]) && InSeq(rs[1..], w[k..])
  }

  // ---------- Text ----------

  const META := "\\.+*?()|[]{}^$"

  /** regexp.QuoteMeta of one character. */
  function QuoteMeta(c: char): string {
    if c in META then ['\\', c] else [c]
  }

  function Text(r: Regex): string {
    match r
    case Lit(c) => QuoteMeta(c)
    case AnyChar => "."
    case NotSlash => "[^/]"
    case Star(a) => Text(a) + "*"
    case Plus(a) => Text(a) + "+"
    case Opt(rs) => "(" + TextSeq(rs) + ")?"
  }

  function TextSeq(rs: seq<Regex>): string {
    if rs == [] then "" else Text(rs[0]) + TextSeq(rs[1..])
  }

  predicate Atom(r: Regex) {
    r.Lit? || r.AnyChar? || r.NotSlash?
  }

  /** Repetition applies to single characters only, as in everything the compiler emits. */
  predicate Simple(r: Regex) {
    match r
    case Star(a) => Atom(a)
    case Plus(a) => Atom(a)
    case Opt(rs) => forall x | x in rs :: Simple(x)
    case _ => true
  }

  // ---------- Parser ----------

  /** One atom and the text after it; None outside the fragment. */
  function ParseAtom(s: string): (r: Option<(Regex, string)>)
    ensures r.Some? ==> |r.value.1| < |s|
  {
    if s == "" then None
    else if s[0] == '\\' then if |s| > 1 && s[1] in META then Some((Lit(s[1]), s[2..])) else None
    else if s[0] == '.' then Some((AnyChar, s[1..]))
    else if "[^/]" <= s then Some((NotSlash, s[4..]))
    else if s[0] in META then None
    else Some((Lit(s[0]), s[1..]))
  }

  /** An atom with its repetition operator, or an optional group. */
  function ParsePiece(s: string): (r: Option<(Regex, string)>)
    ensures r.Some? ==> |r.value.1| < |s|
    decreases |s|, 0
  {
    if "(" <= s then
      match ParseSeq(s[1..])
      case None => None
      case Some((rs, rest)) => if ")?" <= rest then Some((Opt(rs), rest[2..])) else None
    else
      match ParseAtom(s)
      case None => None
      case Some((a, rest)) =>
        if "*" <= rest then Some((Star(a), rest[1..]))
        else if "+" <= rest then Some((Plus(a), rest[1..]))
        else Some((a, rest))
  }

  /** Pieces up to a closing parenthesis or the end anchor. */
  function ParseSeq(s: string): (r: Option<(seq<Regex>, string)>)
    ensures r.Some? ==> |r.value.1| <= |s|
    decreases |s|, 1
  {
    if ")" <= s || "$" <= s then Some(([], s))
    else
      match ParsePiece(s)
      case None => None
      case Some((p, rest)) =>
        match ParseSeq(rest)
        case None => None
        case Some((ps, rest')) => Some(([p] + ps, rest'))
  }

  /** regexp.Compile for a text anchored at both ends. */
  function Compile(text: string): Option<seq<Regex>> {
    if !("^" <= text) then None
    else
      match ParseSeq(text[1..])
      case None => None
      case Some((rs, rest)) => if rest == "$" then Some(rs) else None
  }

  /** Regexp.MatchString for a compiled, fully anchored text. */
  predicate MatchString(text: string, w: string) {
    var c := Compile(text);
    c.Some? && InSeq(c.value, w)
  }

  function Anchored(rs: seq<Regex>): string {
    "^" + TextSeq(rs) + "$"
  }

  predicate Closes(s: string) {
    ")" <= s || "$" <= s
  }

  lemma {:induction false} TextHead(r: Regex)
    ensures |Text(r)| > 0
    ensures Text(r)[0] !in ['*', '+', '?', ')', '$']
  {
    match r
    case Star(a) => TextHead(a);
    case Plus(a) => TextHead(a);
    case _ =>
  }

  lemma {:induction false} TextSeqHead(rs: seq<Regex>, tail: string)
    requires Closes(tail)
    ensures |TextSeq(rs) + tail| > 0
    ensures (TextSeq(rs) + tail)[0] !in ['*', '+', '?']
  {
    if rs != [] { TextHead(rs[0]); }
  }

  lemma {:induction false} ParseAtomText(a: Regex, tail: string)
    requires Atom(a)
    ensures ParseAtom(Text(a) + tail) == Some((a, tail))
    ensures !("(" <= Text(a) + tail)
  {}

  lemma {:induction false} ParseRepeatText(a: Regex, op: string, tail: string)
    requires Atom(a) && (op == "*" || op == "+")
    ensures ParsePiece(Text(a) + op + tail) == Some((if op == "*" then Star(a) else Plus(a), tail))
  {
    var rest := op + tail;
    assert Text(a) + op + tail == Text(a) + rest;
    ParseAtomText(a, rest);
    assert rest[0] == op[0] && rest[1..] == tail;
  }

  lemma {:induction false} ParsePieceText(r: Regex, tail: string)
    requires Simple(r)
    requires |tail| > 0 && tail[0] !in ['*', '+', '?']
    ensures ParsePiece(Text(r) + tail) == Some((r, tail))
    decreases r, 0
  {
    match r
    case Opt(rs) => ParseGroupText(rs, tail);
    case Star(a) => ParseRepeatText(a, "*", tail);
    case Plus(a) => ParseRepeatText(a, "+", tail);
    case _ => ParseAtomText(r, tail);
  }

  lemma {:induction false} ParseGroupText(rs: seq<Regex>, tail: string)
    requires forall x | x in rs :: Simple(x)
    ensures ParsePiece(Text(Opt(rs)) + tail) == Some((Opt(rs), tail))
    decreases rs, 2
  {
    var s, rest := Text(Opt(rs)) + tail, ")?" + tail;
    assert s[1..] == TextSeq(rs) + rest && "(" <= s;
    ParseSeqText(rs, rest);
    assert rest[2..] == tail;
  }

  lemma {:induction false} ParseSeqText(rs: seq<Regex>, tail: string)
    requires forall x | x in rs :: Simple(x)
    requires Closes(tail)
    ensures ParseSeq(TextSeq(rs) + tail) == Some((rs, tail))
    decreases rs, 1
  {
    if rs == [] {
      assert TextSeq(rs) + tail == tail;
    } else {
      var s := TextSeq(rs) + tail;
      var more := TextSeq(rs[1..]) + tail;
      assert s == Text(rs[0]) + more;
      TextHead(rs[0]);
      TextSeqHead(rs[1..], tail);
      ParsePieceText(rs[0], more);
      ParseSeqText(rs[1..], tail);
      assert [rs[0]] + rs[1..] == rs;
    }
  }

  /** Round trip: the text of simple pieces always compiles, and to those very pieces; no
      character of a pattern can be read as an operator. */
  lemma {:induction false} CompileText(rs: seq<Regex>)
    requires forall x | x in rs :: Simple(x)
    ensures Compile(Anchored(rs)) == Some(rs)
  {
    ParseSeqText(rs, "$");
    assert Anchored(rs)[1..] == TextSeq(rs) + "$";
  }

  lemma {:induction false} TextSeqAppend(xs: seq<Regex>, ys: seq<Regex>)
    ensures TextSeq(xs + ys) == TextSeq(xs) + TextSeq(ys)
  {
    if xs == [] {
      assert xs + ys == ys;
    } else {
      TextSeqAppend(xs[1..], ys);
      assert (xs + ys)[1..] == xs[1..] + ys;
      Assoc(Text(xs[0]), TextSeq(xs[1..]), TextSeq(ys));
    }
  }

  // ---------- The fragments' languages ----------

  lemma {:induction false} StarNotSlash(w: string)
    ensures In(Star(NotSlash), w) <==> '/' !in w
  {
    if w != "" {
      StarNotSlash(w[1..]);
      if '/' !in w {
        assert In(NotSlash, w[..1]) && In(Star(NotSlash), w[1..]);
      }
      forall k | 0 < k <= |w| && In(NotSlash, w[..k]) && In(Star(NotSlash), w[k..])
        ensures '/' !in w
      {
        assert k == 1 && w == w[..1] + w[1..];
      }
    }
  }

  lemma {:induction false} StarAny(w: string)
    ensures In(Star(AnyChar), w) <==> '\n' !in w
  {
    if w != "" {
      StarAny(w[1..]);
      if '\n' !in w {
        assert In(AnyChar, w[..1]) && In(Star(AnyChar), w[1..]);
      }
      forall k | 0 < k <= |w| && In(AnyChar, w[..k]) && In(Star(AnyChar), w[k..])
        ensures '\n' !in w
      {
        assert k == 1 && w == w[..1] + w[1..];
      }
    }
  }

  lemma {:induction false} PlusAny(w: string)
    ensures In(Plus(AnyChar), w) <==> w != "" && '\n' !in w
  {
    if |w| > 1 {
      PlusAny(w[1..]);
      if '\n' !in w {
        assert In(AnyChar, w[..1]) && In(Plus(AnyChar), w[1..]);
      }
      forall k | 0 < k < |w| && In(AnyChar, w[..k]) && In(Plus(AnyChar), w[k..])
        ensures '\n' !in w
      {
        assert k == 1 && w == w[..1] + w[1..];
      }
    }
  }

  lemma {:induction false} InSeqCons(r: Regex, rs: seq<Regex>, w: string)
    ensures InSeq([r] + rs, w) <==> exists k | 0 <= k <= |w| :: In(r, w[..k]) && InSeq(rs, w[k..])
  {}

  lemma {:induction false} InSeqLit(c: char, rs: seq<Regex>, w: string)
    ensures InSeq([Lit(c)] + rs, w) <==> w != "" && w[0] == c && InSeq(rs, w[1..])
  {}

  /** The group `(x/)?` where x is `.+` or `.*`: empty, or newline-free text ended by a slash. */
  lemma {:induction false} OptDirs(x: Regex, w: string)
    requires x == Star(AnyChar) || x == Plus(AnyChar)
    ensures In(Opt([x, Lit('/')]), w) <==>
            w == "" || (w[|w| - 1] == '/' && '\n' !in w && (x == Plus(AnyChar) ==> |w| > 1))
  {
    if w != "" {
      GroupBody(x, w);
      StarAny(w[..|w| - 1]);
      PlusAny(w[..|w| - 1]);
    }
  }

  /** What stands before the slash, and the slash. */
  lemma {:induction false} GroupBody(x: Regex, w: string)
    requires w != ""
    ensures InSeq([x, Lit('/')], w) <==> In(x, w[..|w| - 1]) && w[|w| - 1] == '/'
  {
    var n := |w| - 1;
    InSeqCons(x, [Lit('/')], w);
    assert [x] + [Lit('/')] == [x, Lit('/')];
    forall k | 0 <= k <= |w| ensures InSeq([Lit('/')], w[k..]) <==> k == n && w[n] == '/' {
      InSeqLit('/', [], w[k..]);
      assert [Lit('/')] + [] == [Lit('/')];
    }
  }
}
