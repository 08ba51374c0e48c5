/** walker/walker.go: the stack of ignore layers, the directory walk that pushes and pops it, and
    the per-path Match that rebuilds one. */
module Walker {
  import opened Seqs
  import opened Wrappers
  import opened Paths
  import opened Gitignore

  /** A directory tree; the root is the empty path, and entries come in the order WalkDir reads
      them. */
  datatype Node = File | Dir(entries: seq<Entry>)
  datatype Entry = Entry(name: string, node: Node)

  /** Entry names are path segments and distinct within a directory. */
  predicate WellFormed(node: Node) {
    node.Dir? ==>
      && (forall i | 0 <= i < |node.entries| ::
            node.entries[i].name != "" && '/' !in node.entries[i].name && WellFormed(node.entries[i].node))
      && (forall i, j | 0 <= i < j < |node.entries| :: node.entries[i].name != node.entries[j].name)
  }

  /** The ignore lines of each directory, its .gitignore followed by its .caignore, and what a line
      says of a path. Nothing is asked of either: brackets, stars and bytes may be any. */
  datatype IgnoreLines = IgnoreLines(of: Path -> seq<string>, judge: Judge)

  // ---------- Path-wise meaning ----------

  function Ups(n: nat): Path {
    if n == 0 then [] else [".."] + Ups(n - 1)
  }

  /** filepath.Rel, in segments. */
  function Rel(d: Path, p: Path): Path {
    if d == [] then if p == [] then ["."] else p
    else if p != [] && p[0] == d[0] then Rel(d[1..], p[1..])
    else Ups(|d|) + p
  }

  lemma {:induction false} RelInside(d: Path, p: Path)
    requires d <= p
    ensures Rel(d, p) == if p == d then ["."] else p[|d|..]
  {
    if d != [] {
      RelInside(d[1..], p[1..]);
      assert p == [d[0]] + p[1..] && d == [d[0]] + d[1..];
    }
  }

  lemma {:induction false} RelOutside(d: Path, p: Path)
    requires !(d <= p)
    ensures ".." <= Join(Rel(d, p))
  {
    if p != [] && p[0] == d[0] {
      assert !(d[1..] <= p[1..]) by {
        assert d == [d[0]] + d[1..] && p == [p[0]] + p[1..];
      }
      RelOutside(d[1..], p[1..]);
    } else {
      assert Rel(d, p)[0] == "..";
    }
  }

  /** What the rules of directory d say about p; they are silent outside d, and also on anything
      whose path inside d starts with two dots. */
  ghost function LayerSays(lines: IgnoreLines, d: Path, p: Path, isDir: bool): Verdict {
    var rel := Rel(d, p);
    if ".." <= Join(rel) then NoMatch else LinesSay(lines.judge, lines.of(d), Join(rel), isDir)
  }

  /** The deepest of the first k directories on the way to p whose rules say anything decides. */
  ghost function Judged(lines: IgnoreLines, p: Path, k: nat, isDir: bool): Verdict
    requires k <= |p| + 1
  {
    if k == 0 then NoMatch
    else
      var v := LayerSays(lines, p[..k - 1], p, isDir);
      if v != NoMatch then v else Judged(lines, p, k - 1, isDir)
  }

  predicate Reserved(p: Path) {
    ".git" in p || ".codamigo" in p
  }

  /** A directory is skipped under the rules of its proper ancestors. */
  ghost predicate Skipped(lines: IgnoreLines, d: Path) {
    d != [] && (Reserved(d) || Judged(lines, d, |d|, true) == Ignored)
  }

  /** The same, with the directory's own rules applied to itself, as the path ".". */
  ghost predicate SkippedWithOwn(lines: IgnoreLines, d: Path) {
    d != [] && (Reserved(d) || Judged(lines, d, |d| + 1, true) == Ignored)
  }

  /** The configured filters other than ignore rules. */
  datatype Filters = Filters(includePatterns: seq<string>, excludePatterns: seq<string>,
                             glob: (string, string) -> bool, fileFilter: Path -> bool)

  predicate Hits(f: Filters, patterns: seq<string>, p: Path)
    requires p != []
  {
    exists i | 0 <= i < |patterns| :: f.glob(patterns[i], p[|p| - 1]) || f.glob(patterns[i], Join(p))
  }

  ghost predicate FilePasses(lines: IgnoreLines, f: Filters, p: Path)
    requires p != []
  {
    && p[|p| - 1] !in [".gitignore", ".caignore"]
    && Judged(lines, p, |p|, false) != Ignored
    && !Hits(f, f.excludePatterns, p)
    && (f.includePatterns != [] ==> Hits(f, f.includePatterns, p))
    && f.fileFilter(p)
  }

  /** The specification of Walk, path by path: the file passes and no ancestor is skipped. */
  ghost predicate Wanted(lines: IgnoreLines, f: Filters, p: Path) {
    p != [] && FilePasses(lines, f, p) && forall k | 0 < k < |p| :: !Skipped(lines, p[..k])
  }

  /** The specification of Match. */
  ghost predicate Matched(lines: IgnoreLines, f: Filters, p: Path) {
    p != [] && FilePasses(lines, f, p) && forall k | 0 < k < |p| :: !SkippedWithOwn(lines, p[..k])
  }

  /** All files below p, in walk order. */
  function Files(p: Path, node: Node): seq<Path>
    decreases node, 0
  {
    match node
    case File => [p]
    case Dir(entries) => FilesIn(p, entries)
  }

  /** Following the names from the node leads to a file. */
  predicate FileAt(node: Node, names: Path)
    decreases |names|, 1
  {
    if names == [] then node.File?
    else node.Dir? && Among(node.entries, names)
  }

  predicate Among(entries: seq<Entry>, names: Path)
    requires names != []
    decreases |names|, 0
  {
    exists i | 0 <= i < |entries| :: entries[i].name == names[0] && FileAt(entries[i].node, names[1..])
  }

  function FilesIn(p: Path, entries: seq<Entry>): seq<Path>
    decreases entries, 1
  {
    if entries == [] then []
    else Files(p + [entries[0].name], entries[0].node) + FilesIn(p, entries[1..])
  }

  /** The listing has exactly the files there are. */
  lemma {:induction false} ListedExactly(p: Path, node: Node, names: Path)
    ensures p + names in Files(p, node) <==> FileAt(node, names)
    decreases node, 0
  {
    if node.File? {
      assert p + names == p <==> |p + names| == |p|;
    } else if names == [] {
      if p + names in Files(p, node) { FilesBelow(p, node, p + names); }
    } else {
      ListedAmong(p, node.entries, names);
    }
  }

  lemma {:induction false} ListedAmong(p: Path, entries: seq<Entry>, names: Path)
    requires names != []
    ensures p + names in FilesIn(p, entries) <==> Among(entries, names)
    decreases entries, 1
  {
    if entries != [] {
      var e, rest := entries[0], entries[1..];
      assert entries == [e] + rest;
      ListedAmong(p, rest, names);
      FirstOrRest(e, rest, names);
      ListedExactly(p + [e.name], e.node, names[1..]);
      if e.name == names[0] {
        assert p + [e.name] + names[1..] == p + names;
      } else {
        OtherName(p, e, names);
      }
    }
  }

  lemma {:induction false} OtherName(p: Path, e: Entry, names: Path)
    requires names != [] && e.name != names[0]
    ensures p + names !in Files(p + [e.name], e.node)
  {
    assert (p + names)[|p|] == names[0];
    if p + names in Files(p + [e.name], e.node) {
      FilesBelow(p + [e.name], e.node, p + names);
      assert false;
    }
  }

  lemma {:induction false} FirstOrRest(e: Entry, rest: seq<Entry>, names: Path)
    requires names != []
    ensures Among([e] + rest, names) <==> (e.name == names[0] && FileAt(e.node, names[1..])) || Among(rest, names)
  {
    var entries := [e] + rest;
    assert entries[0] == e;
    if Among(rest, names) {
      var i :| 0 <= i < |rest| && rest[i].name == names[0] && FileAt(rest[i].node, names[1..]);
      assert entries[i + 1] == rest[i];
    }
    if Among(entries, names) {
      var i :| 0 <= i < |entries| && entries[i].name == names[0] && FileAt(entries[i].node, names[1..]);
      assert i > 0 ==> rest[i - 1] == entries[i];
    }
  }

  ghost function Chosen(lines: IgnoreLines, f: Filters, ps: seq<Path>): seq<Path> {
    Filter(p => Wanted(lines, f, p), ps)
  }

  lemma {:induction false} ChosenAppend(lines: IgnoreLines, f: Filters, ps: seq<Path>, qs: seq<Path>)
    ensures Chosen(lines, f, ps + qs) == Chosen(lines, f, ps) + Chosen(lines, f, qs)
  {
    FilterAppend(p => Wanted(lines, f, p), ps, qs);
  }

  lemma {:induction false} ChosenExactly(lines: IgnoreLines, f: Filters, ps: seq<Path>, p: Path)
    ensures p in Chosen(lines, f, ps) <==> p in ps && Wanted(lines, f, p)
  {
    FilterMember(p => Wanted(lines, f, p), ps, p);
  }

  lemma {:induction false} FilesBelow(p: Path, node: Node, q: Path)
    requires q in Files(p, node)
    ensures p <= q && (node.Dir? ==> p < q)
    decreases node, 0
  {
    if node.Dir? { FilesBelowIn(p, node.entries, q); }
  }

  lemma {:induction false} FilesBelowIn(p: Path, entries: seq<Entry>, q: Path)
    requires q in FilesIn(p, entries)
    ensures p < q
    decreases entries, 1
  {
    if q in FilesIn(p, entries[1..]) {
      FilesBelowIn(p, entries[1..], q);
    } else {
      FilesBelow(p + [entries[0].name], entries[0].node, q);
      assert p < p + [entries[0].name];
    }
  }

  /** What a file that passes has to be, test by test: not an ignore file, not ignored, not excluded,
      included if includes are given, accepted by the filter. */
  lemma {:induction false} PassesExactly(lines: IgnoreLines, f: Filters, p: Path)
    requires p != []
    ensures FilePasses(lines, f, p) <==>
      && p[|p| - 1] != ".gitignore" && p[|p| - 1] != ".caignore"
      && Judged(lines, p, |p|, false) != Ignored
      && (forall i | 0 <= i < |f.excludePatterns| ::
            !f.glob(f.excludePatterns[i], p[|p| - 1]) && !f.glob(f.excludePatterns[i], Join(p)))
      && (f.includePatterns == []
          || (exists i :: 0 <= i < |f.includePatterns|
                && (f.glob(f.includePatterns[i], p[|p| - 1]) || f.glob(f.includePatterns[i], Join(p)))))
      && f.fileFilter(p)
  {}

  /** What the directories above it have to be for Walk: neither reserved nor ignored by the rules of
      their own ancestors, */
  lemma {:induction false} OpenExactly(lines: IgnoreLines, p: Path)
    requires p != []
    ensures (forall k | 0 < k < |p| :: !Skipped(lines, p[..k])) <==>
      && ".git" !in p[..|p| - 1] && ".codamigo" !in p[..|p| - 1]
      && forall k | 0 < k < |p| :: Judged(lines, p[..k], k, true) != Ignored
  {
    NoneReserved(p);
    forall k | 0 < k < |p|
      ensures Skipped(lines, p[..k]) <==> Reserved(p[..k]) || Judged(lines, p[..k], k, true) == Ignored
    {}
  }

  /** and for Match: nor by those rules and their own. */
  lemma {:induction false} OpenWithOwnExactly(lines: IgnoreLines, p: Path)
    requires p != []
    ensures (forall k | 0 < k < |p| :: !SkippedWithOwn(lines, p[..k])) <==>
      && ".git" !in p[..|p| - 1] && ".codamigo" !in p[..|p| - 1]
      && forall k | 0 < k < |p| :: Judged(lines, p[..k], k + 1, true) != Ignored
  {
    NoneReserved(p);
    forall k | 0 < k < |p|
      ensures SkippedWithOwn(lines, p[..k]) <==> Reserved(p[..k]) || Judged(lines, p[..k], k + 1, true) == Ignored
    {}
  }

  lemma {:induction false} NoneReserved(p: Path)
    requires p != []
    ensures (forall k | 0 < k < |p| :: !Reserved(p[..k])) <==> ".git" !in p[..|p| - 1] && ".codamigo" !in p[..|p| - 1]
  {
    if |p| > 1 { assert p[..|p| - 1] == p[..|p| - 1][..|p| - 1]; }
    forall k | 0 < k < |p| && Reserved(p[..k]) ensures Reserved(p[..|p| - 1]) {
      assert p[..k] <= p[..|p| - 1];
    }
  }

  /** Nothing below a skipped directory is wanted. */
  lemma {:induction false} NothingBelowSkipped(lines: IgnoreLines, f: Filters, d: Path, node: Node)
    requires Skipped(lines, d) && node.Dir?
    ensures Chosen(lines, f, Files(d, node)) == []
  {
    var files := Files(d, node);
    forall i | 0 <= i < |files| ensures d < files[i] { FilesBelow(d, node, files[i]); }
    NoneWanted(lines, f, d, files);
  }

  lemma {:induction false} NoneWanted(lines: IgnoreLines, f: Filters, d: Path, ps: seq<Path>)
    requires Skipped(lines, d)
    requires forall i | 0 <= i < |ps| :: d < ps[i]
    ensures Chosen(lines, f, ps) == []
  {
    if ps != [] {
      assert ps[0][..|d|] == d;
      NoneWanted(lines, f, d, ps[1..]);
    }
  }

  // ---------- The stack of layers ----------

  datatype Layer = Layer(dir: Path, rules: seq<Rule>)

  ghost predicate LayerOk(lines: IgnoreLines, l: Layer) {
    lines.of(l.dir) != [] && SameMeaning(lines.judge, l.rules, lines.of(l.dir))
  }

  /** The parse cache, shared by the walker's stack and the stacks Match builds. None records a
      directory without ignore lines. */
  class ParseCache {
    var parsed: map<Path, Option<seq<Rule>>>

    constructor ()
      ensures parsed == map[]
    {
      parsed := map[];
    }

    ghost predicate Valid(lines: IgnoreLines)
      reads this
    {
      forall d | d in parsed ::
        match parsed[d]
        case None => lines.of(d) == []
        case Some(rules) => LayerOk(lines, Layer(d, rules))
    }
  }

  /** What one layer of the stack says: nothing of a path outside its directory. */
  function LayerVerdict(l: Layer, p: Path, isDir: bool): Verdict {
    var rel := Join(Rel(l.dir, p));
    if ".." <= rel then NoMatch else RulesSay(l.rules, rel, isDir)
  }

  function StackSays(layers: seq<Layer>, p: Path, isDir: bool): Verdict {
    if layers == [] then NoMatch
    else
      var v := LayerVerdict(layers[|layers| - 1], p, isDir);
      if v != NoMatch then v else StackSays(layers[..|layers| - 1], p, isDir)
  }

  /** The directories among the first k on the way to d that have ignore lines, outermost first. */
  ghost function Chain(lines: IgnoreLines, d: Path, k: nat): seq<Path>
    requires k <= |d| + 1
  {
    if k == 0 then []
    else Chain(lines, d, k - 1) + if lines.of(d[..k - 1]) != [] then [d[..k - 1]] else []
  }

  /** The layers are those of d and its ancestors, then stale ones left below d by the entries
      already visited. */
  ghost predicate StackAt(lines: IgnoreLines, layers: seq<Layer>, d: Path, visited: set<string>) {
    var chain := Chain(lines, d, |d| + 1);
    && |layers| >= |chain|
    && (forall i | 0 <= i < |chain| :: layers[i].dir == chain[i])
    && (forall i | |chain| <= i < |layers| :: Below(layers[i].dir, d, visited))
  }

  predicate Below(s: Path, d: Path, visited: set<string>) {
    d < s && s[|d|] in visited
  }

  /** What every walk leaves behind, finished or not: a root layer is at the bottom. */
  ghost predicate RootFirst(lines: IgnoreLines, layers: seq<Layer>) {
    && (forall i | 0 < i < |layers| :: layers[i].dir != [])
    && (layers != [] && lines.of([]) != [] ==> layers[0].dir == [])
  }

  lemma {:induction false} ChainDirs(lines: IgnoreLines, d: Path, k: nat, i: nat)
    requires k <= |d| + 1 && i < |Chain(lines, d, k)|
    ensures var c := Chain(lines, d, k)[i];
            |c| < k && c <= d && lines.of(c) != [] && (c == [] ==> i == 0)
    ensures k > 0 && lines.of([]) != [] ==> Chain(lines, d, k)[0] == []
    ensures i > 0 ==> |Chain(lines, d, k)[i - 1]| < |Chain(lines, d, k)[i]|
  {
    var inner := Chain(lines, d, k - 1);
    assert d[..0] == [];
    if k > 1 && lines.of([]) != [] {
      ChainNonEmpty(lines, d, k - 1);
      ChainDirs(lines, d, k - 1, 0);
    }
    if i < |inner| {
      ChainDirs(lines, d, k - 1, i);
    } else if inner != [] {
      ChainDirs(lines, d, k - 1, |inner| - 1);
    }
  }

  lemma {:induction false} ChainPrefix(lines: IgnoreLines, d: Path, e: Path, k: nat)
    requires k <= |d| + 1 && k <= |e| + 1
    requires k > 0 ==> d[..k - 1] == e[..k - 1]
    ensures Chain(lines, d, k) == Chain(lines, e, k)
  {
    if k > 0 {
      assert k > 1 ==> d[..k - 2] == d[..k - 1][..k - 2] && e[..k - 2] == e[..k - 1][..k - 2];
      ChainPrefix(lines, d, e, k - 1);
    }
  }

  lemma {:induction false} StackAtRootFirst(lines: IgnoreLines, layers: seq<Layer>, d: Path, visited: set<string>)
    requires StackAt(lines, layers, d, visited)
    requires forall i | 0 <= i < |layers| :: LayerOk(lines, layers[i])
    ensures RootFirst(lines, layers)
  {
    var chain := Chain(lines, d, |d| + 1);
    forall i | 0 <= i < |chain| ensures i > 0 ==> chain[i] != [] {
      ChainDirs(lines, d, |d| + 1, i);
    }
    if lines.of([]) != [] {
      ChainNonEmpty(lines, d, |d| + 1);
      ChainDirs(lines, d, |d| + 1, 0);
    }
  }

  lemma {:induction false} ChainNonEmpty(lines: IgnoreLines, d: Path, k: nat)
    requires 0 < k <= |d| + 1 && lines.of([]) != []
    ensures Chain(lines, d, k) != []
  {
    if k == 1 {
      assert d[..0] == [];
    } else {
      ChainNonEmpty(lines, d, k - 1);
    }
  }

  /** A layer of the stack says what its directory's lines say. */
  lemma {:induction false} LayerMeaning(lines: IgnoreLines, l: Layer, p: Path, isDir: bool)
    requires LayerOk(lines, l)
    ensures LayerVerdict(l, p, isDir) == LayerSays(lines, l.dir, p, isDir)
  {}

  /** A stack of the chain's layers judges like the path-wise rules. */
  lemma {:induction false} ChainSays(lines: IgnoreLines, layers: seq<Layer>, d: Path, k: nat, p: Path, isDir: bool)
    requires k <= |d| + 1 && k <= |p| + 1
    requires k > 0 ==> d[..k - 1] == p[..k - 1]
    requires |layers| == |Chain(lines, d, k)|
    requires forall i | 0 <= i < |layers| :: layers[i].dir == Chain(lines, d, k)[i] && LayerOk(lines, layers[i])
    ensures StackSays(layers, p, isDir) == Judged(lines, p, k, isDir)
  {
    if k > 0 {
      var e := d[..k - 1];
      assert k > 1 ==> d[..k - 2] == e[..k - 2] && p[..k - 2] == p[..k - 1][..k - 2];
      if lines.of(e) != [] {
        var n := |layers| - 1;
        LayerMeaning(lines, layers[n], p, isDir);
        ChainSays(lines, layers[..n], d, k - 1, p, isDir);
      } else {
        ChainSays(lines, layers, d, k - 1, p, isDir);
        assert LayerSays(lines, e, p, isDir) == NoMatch;
      }
    }
  }

  /** Layers of directories that do not contain p are silent about it. */
  lemma {:induction false} StaleSilent(lines: IgnoreLines, layers: seq<Layer>, n: nat, p: Path, isDir: bool)
    requires n <= |layers|
    requires forall i | n <= i < |layers| :: !(layers[i].dir <= p)
    ensures StackSays(layers, p, isDir) == StackSays(layers[..n], p, isDir)
  {
    if n < |layers| {
      var m := |layers| - 1;
      RelOutside(layers[m].dir, p);
      StaleSilent(lines, layers[..m], n, p, isDir);
      assert layers[..m][..n] == layers[..n];
    } else {
      assert layers[..n] == layers;
    }
  }

  /** With stale layers on top, the stack still judges an entry of d by its proper ancestors. */
  lemma {:induction false} StackJudges(lines: IgnoreLines, layers: seq<Layer>, d: Path, visited: set<string>,
                                       p: Path, isDir: bool)
    requires StackAt(lines, layers, d, visited)
    requires forall i | 0 <= i < |layers| :: LayerOk(lines, layers[i])
    requires |p| == |d| + 1 && d < p && p[|d|] !in visited
    ensures StackSays(layers, p, isDir) == Judged(lines, p, |p|, isDir)
  {
    var n := |Chain(lines, d, |d| + 1)|;
    StaleSilent(lines, layers, n, p, isDir);
    ChainSays(lines, layers[..n], d, |d| + 1, p, isDir);
  }

  class IgnoreStack {
    var layers: seq<Layer>
    const cache: ParseCache
    const lines: IgnoreLines
    const engine: Engine

    ghost predicate Valid()
      reads this, cache
    {
      && cache.Valid(lines) && Judges(lines.judge, engine)
      && (forall i | 0 <= i < |layers| :: LayerOk(lines, layers[i]))
    }

    constructor (cache: ParseCache, lines: IgnoreLines, engine: Engine)
      requires cache.Valid(lines) && Judges(lines.judge, engine)
      ensures Valid() && layers == [] && this.cache == cache && this.lines == lines && this.engine == engine
    {
      this.layers, this.cache, this.lines, this.engine := [], cache, lines, engine;
    }

    method Push(dir: Path, rules: seq<Rule>)
      requires Valid() && LayerOk(lines, Layer(dir, rules))
      modifies this
      ensures Valid() && layers == old(layers) + [Layer(dir, rules)]
    {
      layers := layers + [Layer(dir, rules)];
    }

    /** Pops layers until the top one is the root's or contains cur. */
    method PopTo(cur: Path)
      requires Valid()
      modifies this
      ensures Valid() && layers <= old(layers)
      ensures layers != [] ==> layers[|layers| - 1].dir <= cur
      ensures forall i | |layers| <= i < |old(layers)| :: !(old(layers)[i].dir <= cur)
    {
      while |layers| > 0
        invariant Valid() && layers <= old(layers)
        invariant forall i | |layers| <= i < |old(layers)| :: !(old(layers)[i].dir <= cur)
      {
        var topDir := layers[|layers| - 1].dir;
        if topDir == [] {
          break;
        }
        if cur == topDir || topDir < cur {
          break;
        }
        layers := layers[..|layers| - 1];
      }
    }

    method AlreadyInStack(dir: Path) returns (r: bool)
      ensures r <==> exists i :: 0 <= i < |layers| && layers[i].dir == dir
    {
      for i := 0 to |layers|
        invariant forall j | 0 <= j < i :: layers[j].dir != dir
      {
        if layers[i].dir == dir {
          return true;
        }
      }
      return false;
    }

    /** Pushes dir's layer unless it is there already or dir has no ignore lines; the cache only
        saves parsing and never changes the outcome. */
    method LoadDir(dir: Path)
      requires Valid()
      modifies this, cache
      ensures Valid()
      ensures
        if lines.of(dir) == [] || exists i :: 0 <= i < |old(layers)| && old(layers)[i].dir == dir
        then layers == old(layers)
        else |layers| == |old(layers)| + 1 && layers[..|old(layers)|] == old(layers)
             && layers[|old(layers)|].dir == dir
    {
      var already := AlreadyInStack(dir);
      if already {
        return;
      }
      if dir in cache.parsed {
        match cache.parsed[dir]
        case None =>
        case Some(rules) => Push(dir, rules);
        return;
      }
      var text := lines.of(dir);
      if |text| == 0 {
        cache.parsed := cache.parsed[dir := None];
      } else {
        var rules := CompileGitIgnore(engine, lines.judge, text);
        cache.parsed := cache.parsed[dir := Some(rules)];
        Push(dir, rules);
      }
    }

    method Match(p: Path, isDir: bool) returns (ignored: bool)
      requires Valid()
      ensures ignored <==> StackSays(layers, p, isDir) == Ignored
    {
      var result := NoMatch;
      for i := 0 to |layers|
        invariant result == StackSays(layers[..i], p, isDir)
      {
        var m := MatchLayer(layers[i], p, isDir);
        assert layers[..i + 1][..i] == layers[..i];
        if m != NoMatch {
          result := m;
        }
      }
      assert layers[..|layers|] == layers;
      ignored := result == Ignored;
    }

    /** One turn of that loop: a layer whose directory does not hold the path is passed over. */
    method MatchLayer(l: Layer, p: Path, isDir: bool) returns (m: Verdict)
      ensures m == LayerVerdict(l, p, isDir)
    {
      var layerRel := Join(Rel(l.dir, p));
      if ".." <= layerRel {
        return NoMatch;
      }
      m := MatchResult(l.rules, layerRel, isDir);
    }
  }

  // ---------- The walk ----------

  /** When the context is cancelled or the consumer stops taking paths: asked once per visited
      entry and once per yielded path. */
  class Consumer {
    var asked: nat
    const stops: nat -> bool

    constructor (stops: nat -> bool)
      ensures this.stops == stops && asked == 0
    {
      this.stops, asked := stops, 0;
    }

    /** One of the questions asked since the given one was answered with a stop. */
    ghost predicate Stopped(since: nat)
      reads this
    {
      exists n :: since <= n < asked && stops(n)
    }

    method Poll() returns (stop: bool)
      modifies this
      ensures asked == old(asked) + 1 && stop == stops(old(asked))
    {
      stop := stops(asked);
      asked := asked + 1;
    }
  }

  lemma {:induction false} ChainExtend(lines: IgnoreLines, d: Path, name: string)
    ensures Chain(lines, d + [name], |d| + 2) ==
            Chain(lines, d, |d| + 1) + if lines.of(d + [name]) != [] then [d + [name]] else []
  {
    var e := d + [name];
    assert e[..|d| + 1] == e && e[..|d|] == d && d[..|d|] == d;
    ChainPrefix(lines, d, e, |d| + 1);
  }

  /** Popping to an entry of d removes exactly the stale layers. */
  lemma {:induction false} PopsStale(lines: IgnoreLines, before: seq<Layer>, after: seq<Layer>, d: Path,
                                     visited: set<string>, name: string)
    requires StackAt(lines, before, d, visited) && name !in visited
    requires after <= before
    requires after != [] ==> after[|after| - 1].dir <= d + [name]
    requires forall i | |after| <= i < |before| :: !(before[i].dir <= d + [name])
    ensures |after| == |Chain(lines, d, |d| + 1)|
  {
    var n, p := |Chain(lines, d, |d| + 1)|, d + [name];
    if |after| > n {
      assert false;
    }
    if |after| < n {
      ChainDirs(lines, d, |d| + 1, |after|);
      assert false;
    }
  }

  /** At the root, popping leaves at most the root's own layer, whatever earlier walks left. */
  lemma {:induction false} PopsToRoot(lines: IgnoreLines, before: seq<Layer>, after: seq<Layer>)
    requires RootFirst(lines, before)
    requires forall i | 0 <= i < |before| :: LayerOk(lines, before[i])
    requires lines.of([]) != [] ==> before != []
    requires after <= before
    requires after != [] ==> after[|after| - 1].dir <= []
    requires forall i | |after| <= i < |before| :: !(before[i].dir <= [])
    ensures StackAt(lines, after, [], {})
  {}

  function Names(entries: seq<Entry>): set<string> {
    set i | 0 <= i < |entries| :: entries[i].name
  }

  /** The stack holds exactly the layers of the first k directories on the way to d. */
  ghost predicate IsChain(lines: IgnoreLines, layers: seq<Layer>, d: Path, k: nat)
    requires k <= |d| + 1
  {
    && |layers| == |Chain(lines, d, k)|
    && forall i | 0 <= i < |layers| :: layers[i].dir == Chain(lines, d, k)[i]
  }

  /** What loading the k-th directory on the way to d does to the stack of those before it. */
  lemma {:induction false} LocalNext(lines: IgnoreLines, before: seq<Layer>, after: seq<Layer>, d: Path, k: nat)
    requires k <= |d| && IsChain(lines, before, d, k)
    requires
      if lines.of(d[..k]) == [] || exists i :: 0 <= i < |before| && before[i].dir == d[..k]
      then after == before
      else |after| == |before| + 1 && after[..|before|] == before && after[|before|].dir == d[..k]
    ensures IsChain(lines, after, d, k + 1)
  {
    forall i | 0 <= i < |before| ensures before[i].dir != d[..k] {
      ChainDirs(lines, d, k, i);
    }
    assert forall i | 0 <= i < |before| && |after| > |before| :: after[i] == after[..|before|][i];
  }

  lemma {:induction false} LocalRoot(lines: IgnoreLines, layers: seq<Layer>, d: Path)
    requires if lines.of([]) == [] then layers == [] else |layers| == 1 && layers[0].dir == []
    ensures IsChain(lines, layers, d, 1)
  {}

  /** In the stack Match builds, a directory on the way is judged with its own rules too. */
  lemma {:induction false} LocalJudges(lines: IgnoreLines, layers: seq<Layer>, rel: Path, k: nat)
    requires k < |rel| && IsChain(lines, layers, rel[..|rel| - 1], |rel|)
    requires forall i | 0 <= i < |layers| :: LayerOk(lines, layers[i])
    ensures StackSays(layers, rel[..k], true) == Judged(lines, rel[..k], k + 1, true)
  {
    var d, p := rel[..|rel| - 1], rel[..k];
    var n := ChainLength(lines, d, k + 1);
    forall i | n <= i < |layers| ensures !(layers[i].dir <= p) {
      assert |layers[i].dir| > |p|;
    }
    StaleSilent(lines, layers, n, p, true);
    assert d[..k] == p[..k];
    ChainSays(lines, layers[..n], d, k + 1, p, true);
  }

  /** The first part of a chain is the shorter chain; what follows is deeper. */
  lemma {:induction false} ChainLength(lines: IgnoreLines, d: Path, k: nat) returns (n: nat)
    requires k <= |d| + 1
    ensures var c := Chain(lines, d, |d| + 1);
            && n == |Chain(lines, d, k)| <= |c| && c[..n] == Chain(lines, d, k)
            && forall i | n <= i < |c| :: |c[i]| >= k
    decreases |d| + 1 - k
  {
    n := |Chain(lines, d, k)|;
    if k < |d| + 1 {
      var m := ChainLength(lines, d, k + 1);
      var c := Chain(lines, d, |d| + 1);
      assert c[..m][..n] == c[..n];
      assert forall i | n <= i < m :: c[i] == c[..m][i];
    }
  }

  lemma {:induction false} LoadedIsChain(lines: IgnoreLines, before: seq<Layer>, after: seq<Layer>, d: Path, rel: Path)
    requires |rel| == |d| + 1 && d == rel[..|d|]
    requires IsChain(lines, before, d, |d| + 1)
    requires
      if lines.of(rel) == [] || exists i :: 0 <= i < |before| && before[i].dir == rel
      then after == before
      else |after| == |before| + 1 && after[..|before|] == before && after[|before|].dir == rel
    ensures StackAt(lines, after, rel, {})
  {
    ChainPrefix(lines, d, rel, |d| + 1);
    assert d[..|d|] == d && rel[..|rel|] == rel;
    LocalNext(lines, before, after, rel, |rel|);
  }

  /** Seen from the parent, everything a visited directory leaves behind is stale. */
  lemma {:induction false} StillBelow(lines: IgnoreLines, layers: seq<Layer>, d: Path, rel: Path,
                                      visited: set<string>, names: set<string>)
    requires |rel| == |d| + 1 && d == rel[..|d|]
    requires StackAt(lines, layers, rel, names)
    ensures StackAt(lines, layers, d, visited + {rel[|d|]})
  {
    var name := rel[|d|];
    assert d + [name] == rel;
    ChainExtend(lines, d, name);
  }

  /** Neither d nor a directory above it is skipped. */
  ghost predicate Open(lines: IgnoreLines, d: Path) {
    forall k | 0 < k <= |d| :: !Skipped(lines, d[..k])
  }

  lemma {:induction false} OpenEntry(lines: IgnoreLines, d: Path, name: string)
    requires Open(lines, d)
    ensures Open(lines, d + [name]) <==> !Skipped(lines, d + [name])
  {
    var rel := d + [name];
    assert rel[..|rel|] == rel;
    forall k | 0 < k <= |d| ensures Skipped(lines, rel[..k]) <==> Skipped(lines, d[..k]) {
      assert rel[..k] == d[..k];
    }
  }

  lemma {:induction false} FileYield(lines: IgnoreLines, f: Filters, d: Path, name: string)
    requires Open(lines, d)
    ensures var rel := d + [name];
            Chosen(lines, f, Files(rel, File)) == if FilePasses(lines, f, rel) then [rel] else []
  {
    var rel := d + [name];
    assert forall k | 0 < k <= |d| :: rel[..k] == d[..k];
    var files := Files(rel, File);
    var keep := p => Wanted(lines, f, p);
    assert files == [rel] && |files[1..]| == 0 && Filter(keep, files[1..]) == [];
    assert Filter(keep, files) == if keep(rel) then [rel] else [];
    assert Wanted(lines, f, rel) <==> FilePasses(lines, f, rel);
  }

  /** What a walk of the given files has to show: all the wanted ones in order, or, once stopped,
      a prefix of them. */
  ghost predicate Yielded(lines: IgnoreLines, f: Filters, files: seq<Path>, out: seq<Path>, stopped: bool) {
    if stopped then out <= Chosen(lines, f, files) else out == Chosen(lines, f, files)
  }

  lemma {:induction false} NextEntry(node: Node, i: nat)
    requires node.Dir? && i < |node.entries| && WellFormed(node)
    ensures node.entries[i].name !in Names(node.entries[..i])
    ensures WellFormed(node.entries[i].node)
    ensures Names(node.entries[..i + 1]) == Names(node.entries[..i]) + {node.entries[i].name}
  {}

  lemma {:induction false} YieldMore(lines: IgnoreLines, f: Filters, rel: Path, node: Node, i: nat,
                                     out: seq<Path>, ys: seq<Path>, stop: bool)
    requires node.Dir? && i < |node.entries|
    requires out + Chosen(lines, f, FilesIn(rel, node.entries[i..])) == Chosen(lines, f, Files(rel, node))
    requires Yielded(lines, f, Files(rel + [node.entries[i].name], node.entries[i].node), ys, stop)
    ensures
      if stop then out + ys <= Chosen(lines, f, Files(rel, node))
      else out + ys + Chosen(lines, f, FilesIn(rel, node.entries[i + 1..])) == Chosen(lines, f, Files(rel, node))
  {
    var e, rest := node.entries[i], node.entries[i..];
    assert rest[0] == e && rest[1..] == node.entries[i + 1..];
    ChosenAppend(lines, f, Files(rel + [e.name], e.node), FilesIn(rel, node.entries[i + 1..]));
    Resume(out, ys, Chosen(lines, f, Files(rel + [e.name], e.node)),
           Chosen(lines, f, FilesIn(rel, node.entries[i + 1..])), stop);
  }

  lemma {:induction false} Resume(out: seq<Path>, ys: seq<Path>, mine: seq<Path>, others: seq<Path>, stop: bool)
    requires ys <= mine && (!stop ==> ys == mine)
    ensures out + ys <= out + (mine + others)
    ensures !stop ==> out + ys + others == out + (mine + others)
  {}

  class Walker {
    const filters: Filters
    const ignore: IgnoreStack

    constructor (filters: Filters, of: Path -> seq<string>, engine: Engine)
      ensures this.filters == filters && ignore.lines == IgnoreLines(of, JudgeOf(engine))
      ensures fresh(ignore) && fresh(ignore.cache) && Ready()
    {
      this.filters := filters;
      var cache := new ParseCache();
      ignore := new IgnoreStack(cache, IgnoreLines(of, JudgeOf(engine)), engine);
    }

    /** Kept by every walk, however it ends. */
    ghost predicate Ready()
      reads ignore, ignore.cache
    {
      ignore.Valid() && RootFirst(ignore.lines, ignore.layers)
    }

    method ShouldSkipDir(rel: Path, ig: IgnoreStack) returns (skip: bool)
      requires ig.Valid()
      ensures skip <==> rel != [] && (Reserved(rel) || StackSays(ig.layers, rel, true) == Ignored)
    {
      if rel == [] {
        return false;
      }
      for i := 0 to |rel|
        invariant ".git" !in rel[..i] && ".codamigo" !in rel[..i]
      {
        if rel[i] == ".git" || rel[i] == ".codamigo" {
          return true;
        }
      }
      assert rel[..|rel|] == rel;
      skip := ig.Match(rel, true);
    }

    method AnyHit(patterns: seq<string>, rel: Path) returns (hit: bool)
      requires rel != []
      ensures hit <==> Hits(filters, patterns, rel)
    {
      for i := 0 to |patterns|
        invariant forall j | 0 <= j < i ::
                    !filters.glob(patterns[j], rel[|rel| - 1]) && !filters.glob(patterns[j], Join(rel))
      {
        if filters.glob(patterns[i], rel[|rel| - 1]) {
          return true;
        }
        if filters.glob(patterns[i], Join(rel)) {
          return true;
        }
      }
      return false;
    }

    method MatchFile(rel: Path, ig: IgnoreStack) returns (passes: bool)
      requires ig.Valid() && rel != []
      requires StackSays(ig.layers, rel, false) == Judged(ig.lines, rel, |rel|, false)
      ensures passes <==> FilePasses(ig.lines, filters, rel)
    {
      var base := rel[|rel| - 1];
      if base == ".gitignore" || base == ".caignore" {
        return false;
      }
      var ignored := ig.Match(rel, false);
      if ignored {
        return false;
      }
      var excluded := AnyHit(filters.excludePatterns, rel);
      if excluded {
        return false;
      }
      if |filters.includePatterns| > 0 {
        var included := AnyHit(filters.includePatterns, rel);
        if !included {
          return false;
        }
      }
      return filters.fileFilter(rel);
    }

    /** Pops the layers that no longer apply and loads this directory's. */
    method EnterDir(d: Path, name: string, ghost visited: set<string>)
      requires ignore.Valid() && StackAt(ignore.lines, ignore.layers, d, visited) && name !in visited
      modifies ignore, ignore.cache
      ensures ignore.Valid() && StackAt(ignore.lines, ignore.layers, d + [name], {})
    {
      ghost var before := ignore.layers;
      ignore.PopTo(d + [name]);
      ghost var popped := ignore.layers;
      PopsStale(ignore.lines, before, popped, d, visited, name);
      ignore.LoadDir(d + [name]);
      LoadedIsChain(ignore.lines, popped, ignore.layers, d, d + [name]);
    }

    /** The callback of WalkDir on one entry and, through WalkDir, on everything below it. Either
        it yields exactly the wanted files there, in order, or it is stopped having yielded a
        prefix of them. */
    method Visit(d: Path, name: string, node: Node, consumer: Consumer, ghost visited: set<string>)
      returns (out: seq<Path>, stopped: bool)
      requires ignore.Valid() && WellFormed(node)
      requires StackAt(ignore.lines, ignore.layers, d, visited) && name !in visited
      requires Open(ignore.lines, d)
      modifies ignore, ignore.cache, consumer
      ensures ignore.Valid() && consumer.asked >= old(consumer.asked)
      ensures Yielded(ignore.lines, filters, Files(d + [name], node), out, stopped)
      ensures stopped ==> RootFirst(ignore.lines, ignore.layers)
      ensures !stopped ==> StackAt(ignore.lines, ignore.layers, d, visited + {name})
      ensures stopped ==> consumer.Stopped(old(consumer.asked))
      decreases node, 1
    {
      ghost var lines := ignore.lines;
      var rel := d + [name];
      out := [];
      StackAtRootFirst(lines, ignore.layers, d, visited);
      StackJudges(lines, ignore.layers, d, visited, rel, node.Dir?);
      stopped := consumer.Poll();
      if stopped {
        return;
      }
      if node.File? {
        var passes := MatchFile(rel, ignore);
        FileYield(lines, filters, d, name);
        if passes {
          out := [rel];
          stopped := consumer.Poll();
        }
        return;
      }
      var skip := ShouldSkipDir(rel, ignore);
      if skip {
        NothingBelowSkipped(lines, filters, rel, node);
        return;
      }
      OpenEntry(lines, d, name);
      EnterDir(d, name, visited);
      out, stopped := VisitEntries(rel, node, consumer);
      if !stopped {
        StillBelow(lines, ignore.layers, d, rel, visited, Names(node.entries));
      }
    }

    /** WalkDir's loop over the entries of a directory that is not skipped. */
    method VisitEntries(rel: Path, node: Node, consumer: Consumer) returns (out: seq<Path>, stopped: bool)
      requires ignore.Valid() && WellFormed(node) && node.Dir?
      requires StackAt(ignore.lines, ignore.layers, rel, {})
      requires Open(ignore.lines, rel)
      modifies ignore, ignore.cache, consumer
      ensures ignore.Valid() && consumer.asked >= old(consumer.asked)
      ensures Yielded(ignore.lines, filters, Files(rel, node), out, stopped)
      ensures stopped ==> RootFirst(ignore.lines, ignore.layers)
      ensures !stopped ==> StackAt(ignore.lines, ignore.layers, rel, Names(node.entries))
      ensures stopped ==> consumer.Stopped(old(consumer.asked))
      decreases node, 0
    {
      ghost var lines, entries := ignore.lines, node.entries;
      out, stopped := [], false;
      var i := 0;
      assert entries[0..] == entries;
      while i < |node.entries|
        invariant 0 <= i <= |entries| && ignore.Valid()
        invariant out + Chosen(lines, filters, FilesIn(rel, entries[i..])) == Chosen(lines, filters, Files(rel, node))
        invariant StackAt(lines, ignore.layers, rel, Names(entries[..i]))
        invariant consumer.asked >= old(consumer.asked)
      {
        var entry := node.entries[i];
        NextEntry(node, i);
        var ys, stop := Visit(rel, entry.name, entry.node, consumer, Names(entries[..i]));
        YieldMore(lines, filters, rel, node, i, out, ys, stop);
        out := out + ys;
        if stop {
          return out, true;
        }
        i := i + 1;
      }
      assert entries[..i] == entries && entries[i..] == [];
    }

    /** Walk, from whatever layers earlier walks left behind. An uninterrupted walk yields exactly
        the wanted files of the tree, in order; an interrupted one a prefix of them. */
    method Walk(tree: Node, consumer: Consumer) returns (out: seq<Path>, stopped: bool)
      requires Ready() && WellFormed(tree) && tree.Dir?
      modifies ignore, ignore.cache, consumer
      ensures Ready()
      ensures Yielded(ignore.lines, filters, Files([], tree), out, stopped)
      ensures forall i, j | 0 <= i < j < |out| :: out[i] != out[j]
      ensures forall p | p in out :: Passing(ignore.lines, filters, tree, p)
      ensures !stopped ==> forall p | Passing(ignore.lines, filters, tree, p) :: p in out
      ensures (forall n :: !consumer.stops(n)) ==> !stopped
    {
      out, stopped := WalkDir(tree, consumer);
      YieldsDistinct(ignore.lines, filters, tree, out, stopped);
      YieldsPassing(ignore.lines, filters, tree, out, stopped);
    }

    method WalkDir(tree: Node, consumer: Consumer) returns (out: seq<Path>, stopped: bool)
      requires Ready() && WellFormed(tree) && tree.Dir?
      modifies ignore, ignore.cache, consumer
      ensures Ready()
      ensures Yielded(ignore.lines, filters, Files([], tree), out, stopped)
      ensures (forall n :: !consumer.stops(n)) ==> !stopped
    {
      out := [];
      ignore.LoadDir([]);
      // The callback on the root itself: never skipped, its layer already loaded.
      stopped := consumer.Poll();
      if stopped {
        return;
      }
      ghost var before := ignore.layers;
      ignore.PopTo([]);
      PopsToRoot(ignore.lines, before, ignore.layers);
      out, stopped := VisitEntries([], tree, consumer);
      if !stopped {
        StackAtRootFirst(ignore.lines, ignore.layers, [], Names(tree.entries));
      }
    }

    /** Match for a file path below the root, with a stack of its own and the shared cache. */
    method Match(rel: Path) returns (matches: bool)
      requires ignore.Valid() && rel != []
      modifies ignore.cache
      ensures ignore.Valid() && ignore.layers == old(ignore.layers)
      ensures matches <==> Matched(ignore.lines, filters, rel)
      ensures matches <==>
        && rel[|rel| - 1] != ".gitignore" && rel[|rel| - 1] != ".caignore"
        && Judged(ignore.lines, rel, |rel|, false) != Ignored
        && (forall i | 0 <= i < |filters.excludePatterns| ::
              !filters.glob(filters.excludePatterns[i], rel[|rel| - 1])
              && !filters.glob(filters.excludePatterns[i], Join(rel)))
        && (filters.includePatterns == []
            || (exists i :: 0 <= i < |filters.includePatterns|
                  && (filters.glob(filters.includePatterns[i], rel[|rel| - 1])
                      || filters.glob(filters.includePatterns[i], Join(rel)))))
        && filters.fileFilter(rel)
        && ".git" !in rel[..|rel| - 1] && ".codamigo" !in rel[..|rel| - 1]
        && (forall k | 0 < k < |rel| :: Judged(ignore.lines, rel[..k], k + 1, true) != Ignored)
    {
      PassesExactly(ignore.lines, filters, rel);
      OpenWithOwnExactly(ignore.lines, rel);
      var local := new IgnoreStack(ignore.cache, ignore.lines, ignore.engine);
      LoadAncestors(local, rel);
      var skip := AncestorSkipped(local, rel);
      if skip {
        return false;
      }
      ChainSays(local.lines, local.layers, rel[..|rel| - 1], |rel|, rel, false);
      matches := MatchFile(rel, local);
    }

    method SkippedAt(local: IgnoreStack, rel: Path, k: nat) returns (skip: bool)
      requires local.Valid() && 0 < k < |rel|
      requires IsChain(local.lines, local.layers, rel[..|rel| - 1], |rel|)
      ensures skip <==> SkippedWithOwn(local.lines, rel[..k])
    {
      LocalJudges(local.lines, local.layers, rel, k);
      skip := ShouldSkipDir(rel[..k], local);
    }

    method AncestorSkipped(local: IgnoreStack, rel: Path) returns (skip: bool)
      requires local.Valid() && rel != []
      requires IsChain(local.lines, local.layers, rel[..|rel| - 1], |rel|)
      ensures skip <==> exists k | 0 < k < |rel| :: SkippedWithOwn(local.lines, rel[..k])
    {
      var i := 0;
      while i < |rel| - 1
        invariant 0 <= i <= |rel| - 1
        invariant forall k | 0 < k <= i :: !SkippedWithOwn(local.lines, rel[..k])
      {
        skip := SkippedAt(local, rel, i + 1);
        if skip {
          return true;
        }
        i := i + 1;
      }
      return false;
    }

    /** Loads the layers of every directory above the file, the root first. */
    method LoadAncestors(local: IgnoreStack, rel: Path)
      requires local.Valid() && local.layers == [] && rel != []
      modifies local, local.cache
      ensures local.Valid() && IsChain(local.lines, local.layers, rel[..|rel| - 1], |rel|)
    {
      ghost var d := rel[..|rel| - 1];
      local.LoadDir([]);
      LocalRoot(local.lines, local.layers, d);
      var i := 0;
      while i < |rel| - 1
        invariant 0 <= i <= |rel| - 1 && local.Valid()
        invariant IsChain(local.lines, local.layers, d, i + 1)
      {
        ghost var popped := local.layers;
        local.LoadDir(rel[..i + 1]);
        assert d[..i + 1] == rel[..i + 1];
        LocalNext(local.lines, popped, local.layers, d, i + 1);
        i := i + 1;
      }
    }
  }

  // ---------- Match against Walk ----------

  /** What a directory's own rules say about the directory itself, as the path ".". */
  function Own(lines: IgnoreLines, d: Path): Verdict {
    LinesSay(lines.judge, lines.of(d), ".", true)
  }

  lemma {:induction false} OwnDecides(lines: IgnoreLines, d: Path)
    requires d != []
    ensures SkippedWithOwn(lines, d) <==>
            Reserved(d) || (if Own(lines, d) != NoMatch then Own(lines, d) == Ignored else Skipped(lines, d))
  {
    assert d[..|d|] == d;
    RelInside(d, d);
    assert Join(["."]) == ".";
  }

  /** The promise that Match reports what Walk would yield holds when no directory above the file
      has rules that say anything about ".". */
  lemma {:induction false} MatchAgreesWithWalk(lines: IgnoreLines, f: Filters, p: Path)
    requires forall k | 0 < k < |p| :: Own(lines, p[..k]) == NoMatch
    ensures Matched(lines, f, p) <==> Wanted(lines, f, p)
  {
    WhenMatchDiffers(lines, f, p);
  }

  /** No directory above p is skipped, but one ignores itself. */
  ghost predicate Misses(lines: IgnoreLines, p: Path) {
    && (forall k | 0 < k < |p| :: !Skipped(lines, p[..k]))
    && exists k | 0 < k < |p| :: Own(lines, p[..k]) == Ignored
  }

  /** Some directory above p is skipped; none of them is reserved or ignores itself, and those
      that their ancestors ignore all re-include themselves. */
  ghost predicate OverAccepts(lines: IgnoreLines, p: Path) {
    && (exists k | 0 < k < |p| :: Skipped(lines, p[..k]))
    && forall k | 0 < k < |p| ::
         && !Reserved(p[..k]) && Own(lines, p[..k]) != Ignored
         && (Judged(lines, p[..k], k, true) == Ignored ==> Own(lines, p[..k]) == Included)
  }

  /** Exactly when it fails, from the rules alone: Match misses a file that Walk yields, or accepts
      one that Walk leaves out. */
  lemma {:induction false} WhenMatchDiffers(lines: IgnoreLines, f: Filters, p: Path)
    ensures Wanted(lines, f, p) && !Matched(lines, f, p) <==>
            p != [] && FilePasses(lines, f, p) && Misses(lines, p)
    ensures Matched(lines, f, p) && !Wanted(lines, f, p) <==>
            p != [] && FilePasses(lines, f, p) && OverAccepts(lines, p)
  {
    forall k | 0 < k < |p|
      ensures SkippedWithOwn(lines, p[..k]) <==>
              Reserved(p[..k])
              || (if Own(lines, p[..k]) != NoMatch then Own(lines, p[..k]) == Ignored else Skipped(lines, p[..k]))
      ensures Skipped(lines, p[..k]) <==> Reserved(p[..k]) || Judged(lines, p[..k], k, true) == Ignored
    {
      OwnDecides(lines, p[..k]);
    }
  }

  /** A nested line `.*` is enough for the first: Match takes it to ignore the directory it stands
      in and so every file of that directory, while Walk yields those whose names do not begin
      with a dot. */
  lemma {:induction false} NestedDotStar(e: Engine, lines: IgnoreLines, f: Filters, x: string, name: string)
    requires EngineOk(e) && Judges(lines.judge, e) && Compiles(e, ".*") && name != "" && '/' !in name
    requires lines.of([]) == [] && lines.of([x]) == [".*"] && !Reserved([x])
    requires name[0] != '.' && OtherwisePasses(f, [x, name])
    ensures Wanted(lines, f, [x, name]) && !Matched(lines, f, [x, name])
  {
    assert Judged(lines, [x], 1, true) == NoMatch;
    DotStarSays(e, lines.judge, ".*", ".", true);
    DotStarSays(e, lines.judge, ".*", name, false);
    TwoLayers(lines, x, name);
    OneAbove(lines, x, name);
    WhenMatchDiffers(lines, f, [x, name]);
  }

  /** A nested line `!*` below a rule for the directory itself is enough for the second: Walk skips
      the directory, Match accepts every file in it. */
  lemma {:induction false} ReincludedDirectory(e: Engine, lines: IgnoreLines, f: Filters, x: string,
                                               name: string)
    requires EngineOk(e) && Judges(lines.judge, e) && Compiles(e, x) && Compiles(e, "!*")
    requires PlainName(x) && name != "" && '/' !in name
    requires lines.of([]) == [x] && lines.of([x]) == ["!*"]
    requires name[0] != '.' && OtherwisePasses(f, [x, name])
    ensures Matched(lines, f, [x, name]) && !Wanted(lines, f, [x, name])
  {
    NameSays(e, lines.judge, x);
    OneLayer(lines, x);
    StarSays(e, lines.judge, name, false);
    StarSays(e, lines.judge, ".", true);
    TwoLayers(lines, x, name);
    OneAbove(lines, x, name);
    WhenMatchDiffers(lines, f, [x, name]);
  }

  /** The two conditions for a file in a top-level directory. */
  lemma {:induction false} OneAbove(lines: IgnoreLines, x: string, name: string)
    ensures Misses(lines, [x, name]) <==> !Skipped(lines, [x]) && Own(lines, [x]) == Ignored
    ensures OverAccepts(lines, [x, name]) <==>
            !Reserved([x]) && Judged(lines, [x], 1, true) == Ignored && Own(lines, [x]) == Included
  {
    var p := [x, name];
    assert p[..1] == [x] && forall k | 0 < k < |p| :: k == 1 && p[..k] == [x];
    if Own(lines, [x]) == Ignored { assert Own(lines, p[..1]) == Ignored; }
    if Skipped(lines, [x]) { assert Skipped(lines, p[..1]); }
  }

  lemma {:induction false} OneLayer(lines: IgnoreLines, x: string)
    requires !(".." <= x)
    ensures Judged(lines, [x], 1, true) == LinesSay(lines.judge, lines.of([]), x, true)
  {
    LayerInside(lines, [], [x], true);
    assert [x][0..] == [x] && [x][..0] == [] && Judged(lines, [x], 0, true) == NoMatch;
  }

  predicate OtherwisePasses(f: Filters, p: Path)
    requires p != []
  {
    p[|p| - 1] !in [".gitignore", ".caignore"] && f.includePatterns == [] && f.excludePatterns == [] && f.fileFilter(p)
  }

  /** A name that stands for itself as an ignore line, */
  predicate PlainTail(x: string) {
    && x != "" && x[0] !in ['\\', '#', '!'] && x[|x| - 1] !in [' ', '\t']
    && forall i | 0 <= i < |x| :: x[i] !in ['*', '?', '[', '/']
  }

  /** and begins with no dot. */
  predicate PlainName(x: string) {
    PlainTail(x) && x[0] != '.'
  }

  lemma {:induction false} TwoLayers(lines: IgnoreLines, x: string, name: string)
    requires !(".." <= name)
    requires lines.of([]) == [] || LinesSay(lines.judge, lines.of([x]), name, false) != NoMatch
    ensures Judged(lines, [x, name], 2, false) == LinesSay(lines.judge, lines.of([x]), name, false)
  {
    var p := [x, name];
    assert p[..1] == [x] && p[..0] == [] && p[1..] == [name];
    LayerInside(lines, [x], p, false);
    assert Join([name]) == name;
    assert Judged(lines, p, 1, false) == LayerSays(lines, [], p, false);
  }

  /** One line without a slash tests the last segment. */
  lemma {:induction false} OneLine(e: Engine, j: Judge, raw: string, g: string, negate: bool, p: Path,
                                   isDir: bool)
    requires EngineOk(e) && Judges(j, e) && Compiles(e, raw) && ParseLine(raw) == Some(Line(g, false, negate, false))
    requires '/' !in g && NoClass(g) && !HasStars(g) && Ok(p) && p != [] && NoNewline(p[..|p| - 1])
    ensures LinesSay(j, [raw], Join(p), isDir) ==
            if !SegMatch(g, p[|p| - 1]) then NoMatch else if negate then Included else Ignored
  {
    assert j(raw, Join(p), isDir) == LineSays(e, raw, Join(p), isDir);
    TextAccepts(e, g, false, Join(p));
    SlashFreeTestsLastSegment(g, p);
    assert [raw][..0] == [];
  }

  lemma {:induction false} DotStarSays(e: Engine, j: Judge, raw: string, s: string, isDir: bool)
    requires EngineOk(e) && Judges(j, e) && Compiles(e, raw) && raw == ['.', '*'] && s != "" && '/' !in s
    ensures LinesSay(j, [raw], s, isDir) == if s[0] == '.' then Ignored else NoMatch
  {
    PlainLine(raw);
    OneLine(e, j, raw, raw, false, [s], isDir);
    assert raw[1..] == "*";
    StarMatches(s[1..]);
  }

  /** A line without any of the special characters at its ends is a pattern as it stands. */
  lemma {:induction false} PlainLine(raw: string)
    requires raw != "" && '/' !in raw
    requires raw[0] !in ['\\', '#', '!'] && raw[|raw| - 1] !in [' ', '\t']
    ensures ParseLine(raw) == Some(Line(raw, false, false, false))
  {}

  lemma {:induction false} StarSays(e: Engine, j: Judge, name: string, isDir: bool)
    requires EngineOk(e) && Judges(j, e) && Compiles(e, "!*") && name != "" && '/' !in name
    ensures LinesSay(j, ["!*"], name, isDir) == Included
  {
    NegatedStar("!*");
    OneLine(e, j, "!*", "*", true, [name], isDir);
    StarMatches(name);
  }

  lemma {:induction false} NegatedStar(raw: string)
    requires raw == ['!', '*']
    ensures ParseLine(raw) == Some(Line("*", false, true, false))
  {
    var g := raw[1..];
    assert g == "*" && g[0] == '*' && |g| == 1 && TrimRight(raw) == raw;
    assert ParsePattern(g, true) == Line(g, false, true, false);
    assert raw[0] == '!' && raw[0] != '#' && "!" <= raw;
  }

  lemma {:induction false} StarMatches(s: string)
    ensures SegMatch("*", s)
  {
    assert "*"[1..] == "" && s[|s|..] == "";
    assert SegMatch("*"[1..], s[|s|..]);
  }

  lemma {:induction false} NameSays(e: Engine, j: Judge, x: string)
    requires EngineOk(e) && Judges(j, e) && Compiles(e, x) && PlainName(x)
    ensures LinesSay(j, [x], x, true) == Ignored
  {
    PlainLine(x);
    OneLine(e, j, x, x, false, [x], true);
    PlainGlob(x, x);
  }

  // ---------- Layers, segment by segment ----------

  /** Inside its directory a layer passes the verdict of its lines on what is left of the path,
      unless that begins with two dots: the layer of the very directory a name `..x` stands in is
      silent about it. Layers further out are not. */
  lemma {:induction false} LayerInside(lines: IgnoreLines, d: Path, p: Path, isDir: bool)
    requires d < p
    ensures LayerSays(lines, d, p, isDir) ==
            if ".." <= p[|d|] then NoMatch else LinesSay(lines.judge, lines.of(d), Join(p[|d|..]), isDir)
  {
    RelInside(d, p);
    var rel := p[|d|..];
    assert rel[0] == p[|d|];
    if |rel| > 1 { DotsInFirst(rel[0], Join(rel[1..])); }
  }

  lemma {:induction false} DotsInFirst(s: string, t: string)
    ensures ".." <= s + "/" + t <==> ".." <= s
  {
    var u := s + "/" + t;
    assert |s| < 2 ==> u[|s|] == '/';
    assert |s| >= 2 ==> u[0] == s[0] && u[1] == s[1];
  }

  /** So a name with two dots at the top of the tree escapes every rule, */
  lemma {:induction false} TopDotDotEscapes(lines: IgnoreLines, name: string, isDir: bool)
    requires ".." <= name
    ensures Judged(lines, [name], 1, isDir) == NoMatch
  {
    LayerInside(lines, [], [name], isDir);
    assert [name][..0] == [];
  }

  /** while below another directory the rules further out still reach it. */
  lemma {:induction false} NestedDotDotReached(e: Engine, lines: IgnoreLines, a: string, name: string)
    requires EngineOk(e) && Judges(lines.judge, e) && Compiles(e, name)
    requires Ok([a, name]) && ".." <= name && !(".." <= a)
    requires PlainTail(name) && '\n' !in a && lines.of([]) == [name]
    ensures Judged(lines, [a, name], 2, false) == Ignored
  {
    var p := [a, name];
    assert p[..1] == [a] && p[..0] == [] && p[0..] == p && Judged(lines, p, 0, false) == NoMatch;
    LayerInside(lines, [], p, false);
    LayerInside(lines, [a], p, false);
    assert NoNewline([a]);
    TailSays(e, lines.judge, name, p);
  }

  lemma {:induction false} TailSays(e: Engine, j: Judge, name: string, p: Path)
    requires EngineOk(e) && Judges(j, e) && Compiles(e, name) && PlainTail(name)
    requires Ok(p) && p != [] && p[|p| - 1] == name
    requires NoNewline(p[..|p| - 1])
    ensures LinesSay(j, [name], Join(p), false) == Ignored
  {
    PlainLine(name);
    OneLine(e, j, name, name, false, p, false);
    PlainGlob(name, name);
  }

  /** With supported lines only, a layer's verdict is what its lines mean segment by segment. */
  lemma {:induction false} LayerMeans(e: Engine, lines: IgnoreLines, d: Path, p: Path, isDir: bool)
    requires EngineOk(e) && Judges(lines.judge, e) && d < p && Ok(p)
    requires forall i | 0 <= i < |lines.of(d)| :: Supported(e, lines.of(d)[i])
    ensures LayerSays(lines, d, p, isDir) ==
            if ".." <= p[|d|] then NoMatch else LinesMean(lines.of(d), p[|d|..], isDir)
  {
    LayerInside(lines, d, p, isDir);
    SupportedLines(e, lines.judge, lines.of(d), p[|d|..], isDir);
  }

  /** The verdict of the first k directories on the way to p, read segment by segment. */
  ghost function JudgedBySegments(lines: IgnoreLines, p: Path, k: nat, isDir: bool): Verdict
    requires k <= |p|
  {
    if k == 0 then NoMatch
    else
      var v := if ".." <= p[k - 1] then NoMatch else LinesMean(lines.of(p[..k - 1]), p[k - 1..], isDir);
      if v != NoMatch then v else JudgedBySegments(lines, p, k - 1, isDir)
  }

  /** With supported lines only, the verdict on an entry is what the lines mean, layer by layer and
      segment by segment. */
  lemma {:induction false} JudgedMeans(e: Engine, lines: IgnoreLines, p: Path, k: nat, isDir: bool)
    requires EngineOk(e) && Judges(lines.judge, e) && Ok(p) && k <= |p|
    requires forall d, i | 0 <= i < |lines.of(d)| :: Supported(e, lines.of(d)[i])
    ensures Judged(lines, p, k, isDir) == JudgedBySegments(lines, p, k, isDir)
  {
    if k > 0 {
      LayerMeans(e, lines, p[..k - 1], p, isDir);
      JudgedMeans(e, lines, p, k - 1, isDir);
    }
  }

  /** A file of the tree that no test keeps from being yielded: its name, the rules above it, the globs,
      the filter, and the directories on the way to it. */
  ghost predicate Passing(lines: IgnoreLines, f: Filters, tree: Node, p: Path) {
    && p != [] && FileAt(tree, p)
    && p[|p| - 1] != ".gitignore" && p[|p| - 1] != ".caignore"
    && Judged(lines, p, |p|, false) != Ignored
    && (forall i | 0 <= i < |f.excludePatterns| ::
          !f.glob(f.excludePatterns[i], p[|p| - 1])
          && !f.glob(f.excludePatterns[i], Join(p)))
    && (f.includePatterns == []
        || (exists i :: 0 <= i < |f.includePatterns|
              && (f.glob(f.includePatterns[i], p[|p| - 1])
                  || f.glob(f.includePatterns[i], Join(p)))))
    && f.fileFilter(p)
    && ".git" !in p[..|p| - 1] && ".codamigo" !in p[..|p| - 1]
    && (forall k | 0 < k < |p| :: Judged(lines, p[..k], k, true) != Ignored)
  }

  /** A walk yields only files of the tree that pass every test, */
  lemma {:induction false} OnlyPassing(lines: IgnoreLines, f: Filters, tree: Node, out: seq<Path>, stopped: bool,
                                       p: Path)
    requires tree.Dir? && Yielded(lines, f, Files([], tree), out, stopped) && p in out
    ensures p != [] && FileAt(tree, p)
      && p[|p| - 1] != ".gitignore" && p[|p| - 1] != ".caignore"
      && Judged(lines, p, |p|, false) != Ignored
      && (forall i | 0 <= i < |f.excludePatterns| ::
            !f.glob(f.excludePatterns[i], p[|p| - 1])
            && !f.glob(f.excludePatterns[i], Join(p)))
      && (f.includePatterns == []
          || (exists i :: 0 <= i < |f.includePatterns|
                && (f.glob(f.includePatterns[i], p[|p| - 1])
                    || f.glob(f.includePatterns[i], Join(p)))))
      && f.fileFilter(p)
      && ".git" !in p[..|p| - 1] && ".codamigo" !in p[..|p| - 1]
      && (forall k | 0 < k < |p| :: Judged(lines, p[..k], k, true) != Ignored)
  {
    var files := Files([], tree);
    assert p in Chosen(lines, f, files);
    ChosenExactly(lines, f, files, p);
    PassesExactly(lines, f, p);
    OpenExactly(lines, p);
    assert [] + p == p;
    ListedExactly([], tree, p);
  }

  /** and when not stopped all of them. */
  lemma {:induction false} AllPassing(lines: IgnoreLines, f: Filters, tree: Node, out: seq<Path>, p: Path)
    requires tree.Dir? && Yielded(lines, f, Files([], tree), out, false) && p != [] && FileAt(tree, p)
    requires p[|p| - 1] != ".gitignore" && p[|p| - 1] != ".caignore"
      && Judged(lines, p, |p|, false) != Ignored
      && (forall i | 0 <= i < |f.excludePatterns| ::
            !f.glob(f.excludePatterns[i], p[|p| - 1])
            && !f.glob(f.excludePatterns[i], Join(p)))
      && (f.includePatterns == []
          || (exists i :: 0 <= i < |f.includePatterns|
                && (f.glob(f.includePatterns[i], p[|p| - 1])
                    || f.glob(f.includePatterns[i], Join(p)))))
      && f.fileFilter(p)
      && ".git" !in p[..|p| - 1] && ".codamigo" !in p[..|p| - 1]
      && (forall k | 0 < k < |p| :: Judged(lines, p[..k], k, true) != Ignored)
    ensures p in out
  {
    var files := Files([], tree);
    assert [] + p == p;
    ListedExactly([], tree, p);
    PassesExactly(lines, f, p);
    OpenExactly(lines, p);
    ChosenExactly(lines, f, files, p);
  }

  lemma {:induction false} YieldsPassing(lines: IgnoreLines, f: Filters, tree: Node, out: seq<Path>, stopped: bool)
    requires tree.Dir? && Yielded(lines, f, Files([], tree), out, stopped)
    ensures forall p | p in out :: Passing(lines, f, tree, p)
    ensures !stopped ==> forall p | Passing(lines, f, tree, p) :: p in out
  {
    forall p | p in out ensures Passing(lines, f, tree, p) { OnlyPassing(lines, f, tree, out, stopped, p); }
    if !stopped {
      forall p | Passing(lines, f, tree, p) ensures p in out { AllPassing(lines, f, tree, out, p); }
    }
  }

  /** No file is yielded twice, however the walk ends. */
  lemma {:induction false} YieldsDistinct(lines: IgnoreLines, f: Filters, tree: Node, out: seq<Path>, stopped: bool)
    requires WellFormed(tree) && Yielded(lines, f, Files([], tree), out, stopped)
    ensures forall i, j | 0 <= i < j < |out| :: out[i] != out[j]
  {
    var files := Files([], tree);
    var chosen := Chosen(lines, f, files);
    FilesDistinct([], tree);
    ChosenDistinct(lines, f, files);
    assert forall i | 0 <= i < |out| :: out[i] == chosen[i];
  }

  lemma {:induction false} ChosenDistinct(lines: IgnoreLines, f: Filters, ps: seq<Path>)
    requires forall i, j | 0 <= i < j < |ps| :: ps[i] != ps[j]
    ensures var ys := Chosen(lines, f, ps); forall i, j | 0 <= i < j < |ys| :: ys[i] != ys[j]
  {
    var keep := p => Wanted(lines, f, p);
    FilterDistinct(keep, ps);
    assert Chosen(lines, f, ps) == Filter(keep, ps);
  }

  /** No file is listed twice. */
  lemma {:induction false} FilesDistinct(p: Path, node: Node)
    requires WellFormed(node)
    ensures forall i, j | 0 <= i < j < |Files(p, node)| :: Files(p, node)[i] != Files(p, node)[j]
    decreases node, 0
  {
    if node.Dir? { EntriesDistinct(p, node.entries); }
  }

  lemma {:induction false} EntriesDistinct(p: Path, entries: seq<Entry>)
    requires forall i | 0 <= i < |entries| :: WellFormed(entries[i].node)
    requires forall i, j | 0 <= i < j < |entries| :: entries[i].name != entries[j].name
    ensures forall i, j | 0 <= i < j < |FilesIn(p, entries)| :: FilesIn(p, entries)[i] != FilesIn(p, entries)[j]
    decreases entries, 1
  {
    if entries != [] {
      var mine, others := Files(p + [entries[0].name], entries[0].node), FilesIn(p, entries[1..]);
      FilesDistinct(p + [entries[0].name], entries[0].node);
      EntriesDistinct(p, entries[1..]);
      forall i, j | 0 <= i < |mine| && 0 <= j < |others| ensures mine[i] != others[j] {
        FilesBelow(p + [entries[0].name], entries[0].node, mine[i]);
        EntryName(p, entries[1..], others[j]);
      }
    }
  }

  lemma {:induction false} EntryName(p: Path, entries: seq<Entry>, q: Path)
    requires q in FilesIn(p, entries)
    ensures |q| > |p| && exists i :: 0 <= i < |entries| && entries[i].name == q[|p|]
  {
    if q in FilesIn(p, entries[1..]) {
      EntryName(p, entries[1..], q);
      var i :| 0 <= i < |entries[1..]| && entries[1..][i].name == q[|p|];
      assert entries[i + 1].name == q[|p|];
    } else {
      FilesBelow(p + [entries[0].name], entries[0].node, q);
      assert q[|p|] == entries[0].name;
    }
  }
}
