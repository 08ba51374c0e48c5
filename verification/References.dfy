/** query/graph.go: references between symbols, the definition one most likely means, and the
    removal of repeated ones. */
module References {
  import opened Wrappers
  import opened Seqs
  import opened Store

  datatype Symbol = Symbol(id: Hash, filePath: string, name: string, nodeKind: string, parent: string,
                           startLine: int, endLine: int)

  /** One end of a relationship, as reported. */
  datatype GraphRef = GraphRef(name: string, qualifier: string, edgeKind: string, resolved: bool, filePath: string,
                               nodeKind: string, parent: string, startLine: int, endLine: int, line: int,
                               refFile: string, depth: int)

  /** The symbols by name, in listing order, and by id. */
  datatype Index = Index(byName: map<string, seq<Symbol>>, byID: map<Hash, Symbol>)

  // ---------- The symbol index ----------

  function Named(list: seq<Symbol>, name: string): seq<Symbol> {
    Filter((s: Symbol) => s.name == name, list)
  }

  function Candidates(x: Index, name: string): seq<Symbol> {
    if name in x.byName then x.byName[name] else []
  }

  predicate HasId(list: seq<Symbol>, id: Hash) {
    exists i | 0 <= i < |list| :: list[i].id == id
  }

  ghost predicate IndexOf(x: Index, list: seq<Symbol>) {
    && (forall name :: Candidates(x, name) == Named(list, name))
    && (forall id :: id in x.byID <==> HasId(list, id))
    && (forall id | id in x.byID :: x.byID[id].id == id && x.byID[id] in list)
  }

  /** The rebuild of the symbol cache. */
  method BuildIndex(list: seq<Symbol>) returns (x: Index)
    ensures IndexOf(x, list)
  {
    x := Index(map[], map[]);
    for i := 0 to |list|
      invariant IndexOf(x, list[..i])
    {
      var sym := list[i];
      ghost var before := x;
      x := Index(x.byName[sym.name := Candidates(x, sym.name) + [sym]], x.byID[sym.id := sym]);
      IndexNext(before, x, list, i);
    }
    assert list[..|list|] == list;
  }

  lemma {:induction false} IndexNext(x: Index, y: Index, list: seq<Symbol>, i: nat)
    requires i < |list| && IndexOf(x, list[..i])
    requires y.byName == x.byName[list[i].name := Candidates(x, list[i].name) + [list[i]]]
    requires y.byID == x.byID[list[i].id := list[i]]
    ensures IndexOf(y, list[..i + 1])
  {
    SliceNext(list, i);
    forall name ensures Candidates(y, name) == Named(list[..i + 1], name) {
      NamedNext(list, i, name);
    }
    forall id ensures id in y.byID <==> HasId(list[..i + 1], id) {
      assert id in x.byID <==> HasId(list[..i], id);
      if HasId(list[..i], id) {
        var j :| 0 <= j < i && list[..i][j].id == id;
        assert list[..i + 1][j].id == id;
      }
      assert list[..i + 1][i] == list[i];
    }
  }

  lemma {:induction false} NamedNext(list: seq<Symbol>, i: nat, name: string)
    requires i < |list|
    ensures Named(list[..i + 1], name) == Named(list[..i], name) + if list[i].name == name then [list[i]] else []
  {
    FilterNext((s: Symbol) => s.name == name, list, i);
  }

  /** The candidates for a name are the symbols of that name, in listing order. */
  lemma {:induction false} CandidatesExactly(x: Index, list: seq<Symbol>, name: string) returns (at: seq<nat>)
    requires IndexOf(x, list)
    ensures Ascending(at) && forall k | 0 <= k < |list| :: k in at <==> list[k].name == name
    ensures name !in x.byName ==> at == []
    ensures name in x.byName ==>
              |x.byName[name]| == |at| && forall i | 0 <= i < |at| :: at[i] < |list| && x.byName[name][i] == list[at[i]]
  {
    var keep := (s: Symbol) => s.name == name;
    at := FilterPositions(keep, list);
    assert Candidates(x, name) == Named(list, name) == Filter(keep, list);
  }

  // ---------- The definition a reference means ----------

  /** How likely a candidate is meant by a reference in the file: best one defined there, then one in
      a file the reference's qualifier leads to. */
  function Rank(file: string, near: Symbol -> bool): Symbol -> nat {
    (s: Symbol) => if s.filePath == file then 0 else if near(s) then 1 else 2
  }

  predicate Nowhere(s: Symbol) {
    false
  }

  /** The first of the candidates of the least rank. */
  predicate BestAt(cands: seq<Symbol>, rank: Symbol -> nat, i: nat) {
    i < |cands| && forall j | 0 <= j < |cands| ::
      if j < i then rank(cands[j]) > rank(cands[i]) else rank(cands[j]) >= rank(cands[i])
  }

  function BestIndex(cands: seq<Symbol>, rank: Symbol -> nat): (i: nat)
    requires cands != []
    ensures BestAt(cands, rank, i)
  {
    var n := |cands| - 1;
    if n == 0 then 0
    else
      var i := BestIndex(cands[..n], rank);
      assert forall j | 0 <= j < n :: cands[..n][j] == cands[j];
      if rank(cands[n]) < rank(cands[i]) then n else i
  }

  function Best(cands: seq<Symbol>, rank: Symbol -> nat): Option<Symbol> {
    if cands == [] then None else Some(cands[BestIndex(cands, rank)])
  }

  /** The choice fails only without candidates, and otherwise is the first of the best rank. */
  lemma {:induction false} BestMeans(cands: seq<Symbol>, rank: Symbol -> nat)
    ensures Best(cands, rank) == None <==> cands == []
    ensures forall i: nat | BestAt(cands, rank, i) :: Best(cands, rank) == Some(cands[i])
  {
    forall i: nat | BestAt(cands, rank, i) ensures Best(cands, rank) == Some(cands[i]) {
      var k := BestIndex(cands, rank);
      assert BestAt(cands, rank, k);
      assert i == k;
    }
  }

  /** The choice is the first candidate in the file, or without one the first that is near, or without
      either the first of all. */
  lemma {:induction false} FirstOfBest(cands: seq<Symbol>, file: string, near: Symbol -> bool) returns (i: nat)
    requires cands != []
    ensures i < |cands| && Best(cands, Rank(file, near)) == Some(cands[i])
    ensures || (cands[i].filePath == file && forall j | 0 <= j < i :: cands[j].filePath != file)
            || ((forall j | 0 <= j < |cands| :: cands[j].filePath != file)
                && near(cands[i]) && forall j | 0 <= j < i :: !near(cands[j]))
            || (i == 0 && forall j | 0 <= j < |cands| :: cands[j].filePath != file && !near(cands[j]))
  {
    var rank := Rank(file, near);
    i := BestIndex(cands, rank);
    assert BestAt(cands, rank, i);
    assert i > 0 ==> rank(cands[0]) > rank(cands[i]);
    assert forall j | 0 <= j < |cands| :: rank(cands[j]) == 0 <==> cands[j].filePath == file;
    assert forall j | 0 <= j < |cands| :: rank(cands[j]) <= 1 <==> cands[j].filePath == file || near(cands[j]);
  }

  lemma {:induction false} SameRanks(cands: seq<Symbol>, r1: Symbol -> nat, r2: Symbol -> nat)
    requires forall s :: r1(s) == r2(s)
    ensures Best(cands, r1) == Best(cands, r2)
  {
    if cands != [] {
      var i := BestIndex(cands, r1);
      assert BestAt(cands, r1, i);
      assert BestAt(cands, r2, i);
      BestMeans(cands, r2);
    }
  }

  // ---------- Qualifiers ----------

  function TrimSlash(p: string): string {
    if p != "" && p[|p| - 1] == '/' then p[..|p| - 1] else p
  }

  function DropSlashes(p: string): string {
    if p != "" && p[|p| - 1] == '/' then DropSlashes(p[..|p| - 1]) else p
  }

  /** Where the last segment of a path starts. */
  function LastSegment(p: string): (n: nat)
    ensures n <= |p| && '/' !in p[n..] && (n > 0 ==> p[n - 1] == '/')
  {
    if p == "" || p[|p| - 1] == '/' then |p| else LastSegment(p[..|p| - 1])
  }

  /** path.Base. */
  function Base(p: string): string {
    var q := DropSlashes(p);
    if p == "" then "." else if q == "" then "/" else q[LastSegment(q)..]
  }

  /** path.Dir of a path without empty or dot segments, as the store's are. */
  function Dir(p: string): string {
    var n := LastSegment(p);
    if n == 0 then "." else if n == 1 then "/" else p[..n - 1]
  }

  function TrimDots(s: string): string {
    if s != "" && s[|s| - 1] in "./" then TrimDots(s[..|s| - 1])
    else if s != "" && s[0] in "./" then TrimDots(s[1..])
    else s
  }

  predicate EndsWith(s: string, t: string) {
    |t| <= |s| && s[|s| - |t|..] == t
  }

  /** The file lies in the directory that the last segments of the module path name. */
  predicate FileMatchesModule(file: string, mod: string) {
    var m := TrimDots(TrimSlash(mod));
    m != "" && (Dir(file) == m || EndsWith(Dir(file), "/" + m))
  }

  /** The import has the qualifier for its alias, or for the last segment of its module. */
  predicate IsNamed(im: Import, qualifier: string, byAlias: bool) {
    if byAlias then im.alias == qualifier else Base(TrimSlash(im.mod)) == qualifier
  }

  predicate FirstNamed(imports: seq<Import>, qualifier: string, byAlias: bool, i: nat) {
    && i < |imports| && IsNamed(imports[i], qualifier, byAlias)
    && forall j | 0 <= j < i :: !IsNamed(imports[j], qualifier, byAlias)
  }

  predicate NoneNamed(imports: seq<Import>, qualifier: string, byAlias: bool) {
    forall j | 0 <= j < |imports| :: !IsNamed(imports[j], qualifier, byAlias)
  }

  /** The module of the first import with that alias, or else of the first with that last segment. */
  ghost predicate Denotes(imports: seq<Import>, qualifier: string, mod: string) {
    || (exists i: nat :: FirstNamed(imports, qualifier, true, i) && imports[i].mod == mod)
    || (NoneNamed(imports, qualifier, true)
        && exists i: nat :: FirstNamed(imports, qualifier, false, i) && imports[i].mod == mod)
  }

  /** The symbol is defined in a file of the module the qualifier denotes. */
  ghost predicate ReachedBy(imports: seq<Import>, qualifier: string, s: Symbol) {
    qualifier != "" && exists mod :: Denotes(imports, qualifier, mod) && FileMatchesModule(s.filePath, mod)
  }

  ghost function LeadsTo(imports: seq<Import>, qualifier: string): Symbol -> bool {
    s => ReachedBy(imports, qualifier, s)
  }

  /** It is in the module of the first import with the qualifier for its alias, or if there is none of the
      first whose last segment is the qualifier. */
  lemma {:induction false} NearExactly(imports: seq<Import>, qualifier: string, s: Symbol)
    ensures LeadsTo(imports, qualifier)(s) <==>
      qualifier != "" && exists i | 0 <= i < |imports| ::
                           && FileMatchesModule(s.filePath, imports[i].mod)
                           && (|| (imports[i].alias == qualifier
                                   && forall j | 0 <= j < i :: imports[j].alias != qualifier)
                               || ((forall j | 0 <= j < |imports| :: imports[j].alias != qualifier)
                                   && Base(TrimSlash(imports[i].mod)) == qualifier
                                   && forall j | 0 <= j < i :: Base(TrimSlash(imports[j].mod)) != qualifier))
  {
    forall i: nat
      ensures FirstNamed(imports, qualifier, true, i) <==>
              i < |imports| && imports[i].alias == qualifier && forall j | 0 <= j < i :: imports[j].alias != qualifier
      ensures FirstNamed(imports, qualifier, false, i) <==>
              i < |imports| && Base(TrimSlash(imports[i].mod)) == qualifier
              && forall j | 0 <= j < i :: Base(TrimSlash(imports[j].mod)) != qualifier
    {}
  }

  /** Trailing slashes aside, that segment is what follows the last slash. */
  lemma {:induction false} BaseExactly(before: string, last: string, slashes: string)
    requires last != "" && '/' !in last && (before == "" || before[|before| - 1] == '/')
    requires forall i | 0 <= i < |slashes| :: slashes[i] == '/'
    ensures Base(TrimSlash(before + last + slashes)) == last
  {
    var p := before + last;
    var more := if slashes == [] then [] else slashes[..|slashes| - 1];
    assert TrimSlash(p + slashes) == p + more by {
      if slashes == [] { assert p + slashes == p; }
    }
    SlashesDropped(p, more);
    LastSegmentAt(before, last);
  }

  lemma {:induction false} SlashesDropped(p: string, slashes: string)
    requires p != "" && p[|p| - 1] != '/' && forall i | 0 <= i < |slashes| :: slashes[i] == '/'
    ensures DropSlashes(p + slashes) == p
  {
    if slashes == [] {
      assert p + slashes == p;
    } else {
      SlashesDropped(p, slashes[..|slashes| - 1]);
      assert (p + slashes)[..|p + slashes| - 1] == p + slashes[..|slashes| - 1];
    }
  }

  lemma {:induction false} LastSegmentAt(before: string, last: string)
    requires '/' !in last && (before == "" || before[|before| - 1] == '/')
    ensures LastSegment(before + last) == |before|
  {
    if last == "" {
      assert before + last == before;
    } else {
      var p := before + last;
      LastSegmentAt(before, last[..|last| - 1]);
      assert p[..|p| - 1] == before + last[..|last| - 1];
      assert p[|p| - 1] == last[|last| - 1];
    }
  }

  /** Dots and slashes at its ends aside, a module is that of the files whose directory is it, or ends with
      it after a slash; never of a file at the top. */
  lemma {:induction false} ModuleExactly(dir: string, name: string, left: string, core: string, right: string)
    requires dir != "" && '/' !in name && Dotted(left) && Dotted(right)
    requires core != "" && core[0] !in "./" && core[|core| - 1] !in "./"
    ensures FileMatchesModule(dir + "/" + name, left + core + right) <==>
            dir == core || exists before :: dir == before + "/" + core
    ensures !FileMatchesModule(name, left + core + right)
  {
    ModuleTrimmed(left, core, right);
    DirAt(dir, name);
    EndsAfterSlash(dir, core);
    EndsAfterSlash(".", core);
  }

  lemma {:induction false} EndsAfterSlash(dir: string, core: string)
    ensures EndsWith(dir, "/" + core) <==> exists before :: dir == before + "/" + core
  {
    if EndsWith(dir, "/" + core) {
      var before := dir[..|dir| - |core| - 1];
      assert dir == before + "/" + core;
    }
    if before :| dir == before + "/" + core {
      assert dir[|before|..] == "/" + core;
    }
  }

  lemma {:induction false} DirAt(dir: string, name: string)
    requires dir != "" && '/' !in name
    ensures Dir(dir + "/" + name) == dir && Dir(name) == "."
  {
    LastSegmentAt(dir + "/", name);
    LastSegmentAt("", name);
    assert "" + name == name;
    assert (dir + "/" + name)[..|dir|] == dir;
  }

  lemma {:induction false} ModuleTrimmed(left: string, core: string, right: string)
    requires Dotted(left) && Dotted(right) && core != "" && core[0] !in "./" && core[|core| - 1] !in "./"
    ensures TrimDots(TrimSlash(left + core + right)) == core
  {
    var mod := left + core + right;
    if right != "" && right[|right| - 1] == '/' {
      assert TrimSlash(mod) == left + core + right[..|right| - 1];
      DotsTrimmed(left, core, right[..|right| - 1]);
    } else {
      assert TrimSlash(mod) == mod;
      DotsTrimmed(left, core, right);
    }
  }

  predicate Dotted(s: string) {
    forall i | 0 <= i < |s| :: s[i] in "./"
  }

  lemma {:induction false} DotsTrimmed(left: string, core: string, right: string)
    requires Dotted(left) && Dotted(right) && core != "" && core[0] !in "./" && core[|core| - 1] !in "./"
    ensures TrimDots(left + core + right) == core
  {
    if right != "" {
      var less := right[..|right| - 1];
      DotsTrimmed(left, core, less);
      LastTrimmed(left + core + less, right[|right| - 1]);
      assert left + core + right == left + core + less + [right[|right| - 1]];
    } else {
      assert left + core + right == left + core;
      LeftTrimmed(left, core);
    }
  }

  lemma {:induction false} LastTrimmed(s: string, ch: char)
    requires ch in "./"
    ensures TrimDots(s + [ch]) == TrimDots(s)
  {
    assert (s + [ch])[..|s|] == s;
  }

  lemma {:induction false} LeftTrimmed(left: string, core: string)
    requires Dotted(left) && core != "" && core[0] !in "./" && core[|core| - 1] !in "./"
    ensures TrimDots(left + core) == core
  {
    if left == "" {
      assert left + core == core;
    } else {
      LeftTrimmed(left[1..], core);
      FirstTrimmed(left[0], left[1..] + core);
      assert left + core == [left[0]] + (left[1..] + core);
    }
  }

  lemma {:induction false} FirstTrimmed(ch: char, s: string)
    requires ch in "./" && s != "" && s[|s| - 1] !in "./"
    ensures TrimDots([ch] + s) == TrimDots(s)
  {
    assert ([ch] + s)[1..] == s;
  }

  lemma {:induction false} UnqualifiedNear(imports: seq<Import>)
    ensures forall s :: LeadsTo(imports, "")(s) == Nowhere(s)
  {}

  method FindNamed(imports: seq<Import>, qualifier: string, byAlias: bool) returns (mod: Option<string>)
    ensures mod == None <==> NoneNamed(imports, qualifier, byAlias)
    ensures forall i: nat | FirstNamed(imports, qualifier, byAlias, i) :: mod == Some(imports[i].mod)
    ensures mod.Some? ==> exists i: nat :: FirstNamed(imports, qualifier, byAlias, i)
  {
    for i := 0 to |imports|
      invariant forall j | 0 <= j < i :: !IsNamed(imports[j], qualifier, byAlias)
    {
      if IsNamed(imports[i], qualifier, byAlias) {
        assert FirstNamed(imports, qualifier, byAlias, i);
        return Some(imports[i].mod);
      }
    }
    return None;
  }

  /** The aliases are searched first, then the last segments. */
  method ModuleForQualifier(imports: seq<Import>, qualifier: string) returns (mod: Option<string>)
    ensures forall m :: Denotes(imports, qualifier, m) <==> mod == Some(m)
  {
    mod := FindNamed(imports, qualifier, true);
    if mod == None {
      mod := FindNamed(imports, qualifier, false);
    }
  }

  /** The definition a reference most likely means: the first one of the best rank. */
  method Resolve(x: Index, imports: seq<Import>, name: string, qualifier: string, fromFile: string)
    returns (best: Option<Symbol>)
    ensures best == Best(Candidates(x, name), Rank(fromFile, LeadsTo(imports, qualifier)))
  {
    var cands := Candidates(x, name);
    if |cands| == 0 {
      return None;
    }
    ghost var near := LeadsTo(imports, qualifier);
    BestMeans(cands, Rank(fromFile, near));
    if |cands| == 1 {
      assert BestAt(cands, Rank(fromFile, near), 0);
      return Some(cands[0]);
    }
    var i := FirstInFile(cands, fromFile, near);
    if i < |cands| {
      return Some(cands[i]);
    }
    if qualifier != "" {
      var mod := ModuleForQualifier(imports, qualifier);
      if mod.Some? {
        assert Denotes(imports, qualifier, mod.value);
        forall s ensures near(s) <==> FileMatchesModule(s.filePath, mod.value) {
          assert near(s) <==> ReachedBy(imports, qualifier, s);
        }
        i := FirstInModule(cands, fromFile, mod.value, near);
        return Some(cands[i]);
      }
    }
    assert BestAt(cands, Rank(fromFile, near), 0);
    return Some(cands[0]);
  }

  /** The first definition in the referring file. */
  method FirstInFile(cands: seq<Symbol>, file: string, ghost near: Symbol -> bool) returns (i: nat)
    ensures i <= |cands|
    ensures i < |cands| ==> BestAt(cands, Rank(file, near), i)
    ensures i == |cands| ==> forall j | 0 <= j < |cands| :: cands[j].filePath != file
  {
    i := 0;
    while i < |cands|
      invariant i <= |cands| && forall j | 0 <= j < i :: cands[j].filePath != file
    {
      if cands[i].filePath == file {
        return;
      }
      i := i + 1;
    }
  }

  /** The first definition in the module's directory, or else the first of all. */
  method FirstInModule(cands: seq<Symbol>, file: string, mod: string, ghost near: Symbol -> bool) returns (i: nat)
    requires cands != [] && forall j | 0 <= j < |cands| :: cands[j].filePath != file
    requires forall s :: near(s) <==> FileMatchesModule(s.filePath, mod)
    ensures BestAt(cands, Rank(file, near), i)
  {
    i := 0;
    while i < |cands|
      invariant i <= |cands| && forall j | 0 <= j < i :: !near(cands[j])
    {
      if FileMatchesModule(cands[i].filePath, mod) {
        return;
      }
      i := i + 1;
    }
    i := 0;
  }

  // ---------- Deduplication ----------

  const NOREF := GraphRef("", "", "", false, "", "", "", 0, 0, 0, "", 0)

  /** What dedupeByDefinition goes by, */
  function Definition(r: GraphRef): (string, string) {
    (r.name, r.filePath)
  }

  /** and what dedupeRefs goes by. */
  function Site(r: GraphRef): (string, string, string, string, int) {
    (r.name, r.qualifier, r.edgeKind, r.refFile, r.line)
  }

  predicate Distinct<K(==)>(key: GraphRef -> K, refs: seq<GraphRef>) {
    forall i, j | 0 <= i < j < |refs| :: key(refs[i]) != key(refs[j])
  }

  predicate SeenIn<K(==)>(key: GraphRef -> K, refs: seq<GraphRef>, k: K) {
    exists i | 0 <= i < |refs| :: key(refs[i]) == k
  }

  /** The first reference of each key. */
  function Deduped<K(==)>(key: GraphRef -> K, refs: seq<GraphRef>): seq<GraphRef> {
    if refs == [] then []
    else
      var n := |refs| - 1;
      var rest := Deduped(key, refs[..n]);
      if SeenIn(key, refs[..n], key(refs[n])) then rest else rest + [refs[n]]
  }

  /** No key is lost, and none is left twice. */
  lemma {:induction false} DedupedKeeps<K(!new)>(key: GraphRef -> K, refs: seq<GraphRef>)
    ensures forall k :: SeenIn(key, refs, k) <==> SeenIn(key, Deduped(key, refs), k)
    ensures Distinct(key, Deduped(key, refs))
  {
    if refs != [] {
      var n := |refs| - 1;
      var r, rest := refs[n], Deduped(key, refs[..n]);
      DedupedKeeps(key, refs[..n]);
      SeenAppend(key, refs[..n], r);
      SeenAppend(key, rest, r);
      assert refs == refs[..n] + [r];
      assert SeenIn(key, refs[..n], key(r)) <==> SeenIn(key, rest, key(r));
      assert forall i | 0 <= i < |rest| && key(rest[i]) == key(r) :: SeenIn(key, rest, key(r));
    }
  }

  /** There is none of the same key before it. */
  predicate IsFirst<K(==)>(key: GraphRef -> K, refs: seq<GraphRef>, k: nat)
    requires k < |refs|
  {
    forall j | 0 <= j < k :: key(refs[j]) != key(refs[k])
  }

  /** What is left are the references before which there is none of the same key. */
  lemma {:induction false} DedupedFirst<K>(key: GraphRef -> K, refs: seq<GraphRef>) returns (at: seq<nat>)
    ensures Ascending(at) && (forall i | 0 <= i < |at| :: at[i] < |refs|)
    ensures forall k | 0 <= k < |refs| :: k in at <==> IsFirst(key, refs, k)
    ensures |Deduped(key, refs)| == |at| && forall i | 0 <= i < |at| :: Deduped(key, refs)[i] == refs[at[i]]
  {
    at := [];
    if refs != [] {
      var n := |refs| - 1;
      var before := DedupedFirst(key, refs[..n]);
      SeenBefore(key, refs, n);
      at := if IsFirst(key, refs, n) then before + [n] else before;
      FirstsNext(key, refs, before, at);
    }
  }

  lemma {:induction false} SeenBefore<K>(key: GraphRef -> K, refs: seq<GraphRef>, n: nat)
    requires n < |refs|
    ensures SeenIn(key, refs[..n], key(refs[n])) <==> !IsFirst(key, refs, n)
    ensures forall k | 0 <= k < n :: IsFirst(key, refs[..n], k) <==> IsFirst(key, refs, k)
  {
    if j :| 0 <= j < n && key(refs[j]) == key(refs[n]) { assert refs[..n][j] == refs[j]; }
  }

  lemma {:induction false} FirstsNext<K>(key: GraphRef -> K, refs: seq<GraphRef>, before: seq<nat>, at: seq<nat>)
    requires refs != [] && Ascending(before) && forall i | 0 <= i < |before| :: before[i] < |refs| - 1
    requires forall k | 0 <= k < |refs| - 1 :: k in before <==> IsFirst(key, refs, k)
    requires at == if IsFirst(key, refs, |refs| - 1) then before + [|refs| - 1] else before
    ensures Ascending(at) && forall i | 0 <= i < |at| :: at[i] < |refs|
    ensures forall k | 0 <= k < |refs| :: k in at <==> IsFirst(key, refs, k)
  {}

  lemma {:induction false} DedupedAmong<K>(key: GraphRef -> K, refs: seq<GraphRef>, k: nat)
    requires k < |Deduped(key, refs)|
    ensures exists l :: 0 <= l < |refs| && refs[l] == Deduped(key, refs)[k]
  {
    var n := |refs| - 1;
    if k < |Deduped(key, refs[..n])| {
      DedupedAmong(key, refs[..n], k);
      var l :| 0 <= l < n && refs[..n][l] == Deduped(key, refs[..n])[k];
      assert refs[l] == Deduped(key, refs)[k];
    } else {
      assert Deduped(key, refs)[k] == refs[n];
    }
  }

  lemma {:induction false} SeenAppend<K(!new)>(key: GraphRef -> K, refs: seq<GraphRef>, r: GraphRef)
    ensures forall k :: SeenIn(key, refs + [r], k) <==> SeenIn(key, refs, k) || key(r) == k
  {
    var more := refs + [r];
    assert more[|refs|] == r;
    forall k | SeenIn(key, refs, k) ensures SeenIn(key, more, k) {
      var i :| 0 <= i < |refs| && key(refs[i]) == k;
      assert more[i] == refs[i];
    }
  }

  /** append to a slice with spare room in its array. */
  method Append(refs: array<GraphRef>, n: nat, r: GraphRef) returns (m: nat)
    requires n < refs.Length
    modifies refs
    ensures m == n + 1 && refs[..m] == old(refs[..n]) + [r]
    ensures forall k | m <= k < refs.Length :: refs[k] == old(refs[k])
  {
    refs[n] := r;
    m := n + 1;
  }

  /** In place: the kept references are moved to the front of the same array. */
  method Dedupe<K(==,!new)>(key: GraphRef -> K, refs: array<GraphRef>, len: nat) returns (n: nat)
    requires len <= refs.Length
    modifies refs
    ensures n <= len && refs[..n] == Deduped(key, old(refs[..len]))
  {
    n := 0;
    ghost var all := refs[..len];
    var seen: set<K> := {};
    assert all[..0] == [];
    for i := 0 to len
      invariant Compacted(key, refs, all, n, i) && Keys(key, seen, all[..i])
    {
      n, seen := DedupeOne(key, refs, n, i, seen, all);
    }
    assert all[..len] == all;
  }

  /** The first i references are reduced to the first n places, the others are where they were. */
  ghost predicate Compacted<K>(key: GraphRef -> K, refs: array<GraphRef>, all: seq<GraphRef>, n: nat, i: nat)
    reads refs
  {
    && n <= i <= |all| <= refs.Length && refs[..n] == Deduped(key, all[..i])
    && forall k | i <= k < |all| :: refs[k] == all[k]
  }

  method DedupeOne<K(==,!new)>(key: GraphRef -> K, refs: array<GraphRef>, n: nat, i: nat, seen: set<K>,
                               ghost all: seq<GraphRef>)
    returns (m: nat, seen': set<K>)
    requires Compacted(key, refs, all, n, i) && i < |all| && Keys(key, seen, all[..i])
    modifies refs
    ensures Compacted(key, refs, all, m, i + 1) && Keys(key, seen', all[..i + 1])
  {
    var r := refs[i];
    DedupedNext(key, all, i, seen);
    if key(r) in seen {
      return n, seen;
    }
    m := Append(refs, n, r);
    seen' := seen + {key(r)};
  }

  /** The keys of the references. */
  ghost predicate Keys<K(!new)>(key: GraphRef -> K, seen: set<K>, refs: seq<GraphRef>) {
    forall k :: k in seen <==> SeenIn(key, refs, k)
  }

  lemma {:induction false} DedupedNext<K(!new)>(key: GraphRef -> K, all: seq<GraphRef>, i: nat, seen: set<K>)
    requires i < |all| && Keys(key, seen, all[..i])
    ensures var k := key(all[i]);
            && Keys(key, seen + {k}, all[..i + 1]) && (k in seen ==> Keys(key, seen, all[..i + 1]))
            && Deduped(key, all[..i + 1]) == Deduped(key, all[..i]) + if k in seen then [] else [all[i]]
  {
    SliceNext(all, i);
    assert all[..i + 1][..i] == all[..i];
    SeenAppend(key, all[..i], all[i]);
    assert SeenIn(key, all[..i], key(all[i])) <==> key(all[i]) in seen;
  }

  // ---------- References of edges ----------

  /** The references that some edges give, in order. */
  function Collected(of: Edge -> Option<GraphRef>, found: seq<Edge>): seq<GraphRef> {
    if found == [] then []
    else
      var n := |found| - 1;
      var rest := Collected(of, found[..n]);
      if of(found[n]) == None then rest else rest + [of(found[n]).value]
  }

  lemma {:induction false} CollectedNext(of: Edge -> Option<GraphRef>, found: seq<Edge>, i: nat)
    requires i < |found|
    ensures Collected(of, found[..i + 1]) == Collected(of, found[..i]) + Listed(of(found[i]))
  {
    assert found[..i + 1][..i] == found[..i];
  }

  function Listed(r: Option<GraphRef>): seq<GraphRef> {
    if r == None then [] else [r.value]
  }

  /** The first len places hold the references of the first i edges. */
  ghost predicate Gathered(of: Edge -> Option<GraphRef>, refs: array<GraphRef>, len: nat, found: seq<Edge>, i: nat)
    reads refs
  {
    len <= i <= |found| == refs.Length && refs[..len] == Collected(of, found[..i])
  }

  /** The end of a turn: appends the reference if there is one. */
  method Gather(ghost of: Edge -> Option<GraphRef>, refs: array<GraphRef>, len: nat, found: seq<Edge>, i: nat,
                r: Option<GraphRef>)
    returns (m: nat)
    requires Gathered(of, refs, len, found, i) && i < |found| && r == of(found[i])
    modifies refs
    ensures Gathered(of, refs, m, found, i + 1)
  {
    CollectedNext(of, found, i);
    m := len;
    if r.Some? {
      m := Append(refs, len, r.value);
    }
  }

  lemma {:induction false} CollectedFrom(of: Edge -> Option<GraphRef>, found: seq<Edge>, k: nat)
    requires k < |Collected(of, found)|
    ensures exists l :: 0 <= l < |found| && of(found[l]) == Some(Collected(of, found)[k])
  {
    var n := |found| - 1;
    if k < |Collected(of, found[..n])| {
      CollectedFrom(of, found[..n], k);
      var l :| 0 <= l < n && of(found[..n][l]) == Some(Collected(of, found[..n])[k]);
      assert found[l] == found[..n][l];
    } else {
      assert of(found[n]) == Some(Collected(of, found)[k]);
    }
  }

  lemma {:induction false} CollectedAll(of: Edge -> Option<GraphRef>, found: seq<Edge>, l: nat)
    requires l < |found| && of(found[l]).Some?
    ensures exists k :: 0 <= k < |Collected(of, found)| && Collected(of, found)[k] == of(found[l]).value
  {
    var n := |found| - 1;
    if l < n {
      CollectedAll(of, found[..n], l);
      var k :| 0 <= k < |Collected(of, found[..n])| && Collected(of, found[..n])[k] == of(found[..n][l]).value;
      assert Collected(of, found)[k] == of(found[l]).value;
    } else {
      assert Collected(of, found)[|Collected(of, found[..n])|] == of(found[l]).value;
    }
  }

  function Located(ref: GraphRef, def: Symbol): GraphRef {
    ref.(filePath := def.filePath, nodeKind := def.nodeKind, parent := def.parent, startLine := def.startLine,
         endLine := def.endLine)
  }

  // ---------- Answers ----------

  datatype Answer = Refs(refs: seq<GraphRef>) | GraphNotBuilt | StoreError

  /** Why there is nothing to return. */
  method EmptyReason(edges: seq<Edge>, run: Session) returns (a: Answer)
    modifies run
    ensures a == StoreError || a == if edges == [] then GraphNotBuilt else Refs([])
    ensures run.Faultless() ==> a != StoreError
  {
    var ok := run.Exec();
    if !ok {
      return StoreError;
    }
    return if |edges| == 0 then GraphNotBuilt else Refs([]);
  }
}
