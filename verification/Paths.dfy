/** Slash-separated relative paths as sequences of segments. */
module Paths {

  type Path = seq<string>

  /** Every segment is non-empty and slash-free, as in every path a directory walk reports. */
  predicate Ok(ss: Path) {
    forall i | 0 <= i < |ss| :: ss[i] != "" && '/' !in ss[i]
  }

  function Join(ss: Path): string {
    if ss == [] then ""
    else if |ss| == 1 then ss[0]
    else ss[0] + "/" + Join(ss[1..])
  }

  /** strings.Split(p, "/"). */
  function Split(p: string): (ps: seq<string>)
    ensures |ps| > 0
    ensures forall i | 0 <= i < |ps| :: '/' !in ps[i]
    ensures Join(ps) == p
  {
    if p == "" then [""]
    else
      var rest := Split(p[1..]);
      if p[0] == '/' then [""] + rest
      else [[p[0]] + rest[0]] + rest[1..]
  }

  lemma {:induction false} SplitJoin(ss: Path)
    requires ss != [] && forall i | 0 <= i < |ss| :: '/' !in ss[i]
    ensures Split(Join(ss)) == ss
  {
    if |ss| == 1 {
      SplitWord(ss[0]);
    } else {
      SplitJoin(ss[1..]);
      SplitAppend(ss[0], Join(ss[1..]));
      assert ss[0] + "/" + Join(ss[1..]) == ss[0] + ("/" + Join(ss[1..]));
    }
  }

  lemma {:induction false} SplitWord(u: string)
    requires '/' !in u
    ensures Split(u) == [u]
  {}

  lemma {:induction false} SplitAppend(u: string, q: string)
    requires '/' !in u
    ensures Split(u + ("/" + q)) == [u] + Split(q)
  {
    var p := u + ("/" + q);
    if u == "" {
      assert p[1..] == q;
    } else {
      SplitAppend(u[1..], q);
      assert p[1..] == u[1..] + ("/" + q);
      assert p[0] == u[0] && u[0] in u;
      assert [u[0]] + u[1..] == u;
    }
  }

  lemma {:induction false} JoinCons(s: string, ss: Path)
    requires ss != []
    ensures Join([s] + ss) == s + ("/" + Join(ss))
  {}
}
