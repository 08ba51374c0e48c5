/** localembed/embedder.go: batched embedding, which must agree with embedding one text at a time. */
module Embedder {
  import opened Wrappers
  import opened Seqs
  import opened Bucket

  type Vector = seq<real>

  datatype EmbedError = ErrClosed | ErrContext | ErrBlank | ErrUnexpectedShape | ErrBatch

  // ---------- Texts and tokens ----------

  /** unicode.IsSpace. */
  predicate IsSpace(ch: char) {
    || ch in ['\t', '\n', '\U{000B}', '\U{000C}', '\r', ' ', '\U{0085}', '\U{00A0}', '\U{1680}', '\U{2028}',
              '\U{2029}', '\U{202F}', '\U{205F}', '\U{3000}']
    || '\U{2000}' <= ch <= '\U{200A}'
  }

  /** strings.TrimSpace leaves nothing. */
  predicate Blank(text: string) {
    forall i | 0 <= i < |text| :: IsSpace(text[i])
  }

  /** How many tokens of a row are not the padding token. */
  function NonPads(padID: int, row: seq<int>): (n: nat)
    ensures n <= |row|
  {
    if row == [] then 0 else NonPads(padID, row[..|row| - 1]) + if row[|row| - 1] != padID then 1 else 0
  }

  /** What the model attends to of a row: as many leading tokens as are not the padding token. */
  function Content(padID: int, row: seq<int>): seq<int> {
    row[..NonPads(padID, row)]
  }

  function Pads(padID: int, n: nat): seq<int> {
    seq(n, i => padID)
  }

  lemma {:induction false} PadsUncounted(padID: int, row: seq<int>, n: nat)
    ensures NonPads(padID, row + Pads(padID, n)) == NonPads(padID, row)
  {
    var padded := row + Pads(padID, n);
    if n == 0 {
      assert padded == row;
    } else {
      PadsUncounted(padID, row, n - 1);
      assert padded[..|padded| - 1] == row + Pads(padID, n - 1);
    }
  }

  /** However far a row is padded, the model attends to the same tokens; to all of them, if the
      text itself has no padding token. */
  lemma {:induction false} PaddingUnseen(padID: int, row: seq<int>, n: nat)
    ensures Content(padID, row + Pads(padID, n)) == Content(padID, row)
    ensures padID !in row ==> Content(padID, row) == row
  {
    PadsUncounted(padID, row, n);
    if padID !in row { AllCounted(padID, row); }
  }

  lemma {:induction false} AllCounted(padID: int, row: seq<int>)
    requires padID !in row
    ensures NonPads(padID, row) == |row|
  {
    if row != [] { AllCounted(padID, row[..|row| - 1]); }
  }

  /** What is attended to is as long as the row without its padding tokens. */
  lemma {:induction false} ContentExactly(padID: int, row: seq<int>)
    ensures Content(padID, row) == row[..|row| - multiset(row)[padID]]
  {
    NonPadsExactly(padID, row);
  }

  lemma {:induction false} NonPadsExactly(padID: int, row: seq<int>)
    ensures NonPads(padID, row) == |row| - multiset(row)[padID]
  {
    if row != [] {
      NonPadsExactly(padID, row[..|row| - 1]);
      assert row == row[..|row| - 1] + [row[|row| - 1]];
    }
  }

  // ---------- The model's runtime ----------

  function Laid(sentence: seq<int> -> Vector, padID: int, rows: seq<seq<int>>): seq<real> {
    if rows == [] then []
    else Laid(sentence, padID, rows[..|rows| - 1]) + sentence(Content(padID, rows[|rows| - 1]))
  }

  /** Inference, and everything around it that may fail. */
  class Device {
    var calls: nat
    const fails: nat -> bool
    const sentence: seq<int> -> Vector  // the pooled embedding of a row's content
    const width: nat
    const padID: int

    constructor (fails: nat -> bool, sentence: seq<int> -> Vector, width: nat, padID: int)
      ensures this.fails == fails && this.sentence == sentence && this.width == width && this.padID == padID
    {
      this.fails, this.sentence, this.width, this.padID, calls := fails, sentence, width, padID, 0;
    }

    ghost predicate Valid() {
      forall ts :: |sentence(ts)| == width
    }

    ghost predicate Faultless() {
      forall n :: !fails(n)
    }

    method Try() returns (ok: bool)
      modifies this
      ensures Faultless() ==> ok
    {
      ok := !fails(calls);
      calls := calls + 1;
    }

    /** One graph invocation: the rows' embeddings, laid end to end. */
    method Exec(rows: seq<seq<int>>) returns (flat: seq<real>, ok: bool)
      requires Valid()
      modifies this
      ensures ok ==> flat == Laid(sentence, padID, rows)
      ensures Faultless() ==> ok
    {
      flat := [];
      ok := Try();
      for i := 0 to |rows|
        invariant flat == Laid(sentence, padID, rows[..i])
      {
        assert rows[..i + 1][..i] == rows[..i];
        flat := flat + sentence(Content(padID, rows[i]));
      }
      assert rows[..|rows|] == rows;
    }
  }

  lemma {:induction false} WiderIsMore(rows: nat, a: nat, b: nat)
    requires rows > 0 && a < b
    ensures rows * a < rows * b
  {}

  lemma {:induction false} SameWidth(rows: nat, a: nat, b: nat)
    requires rows * a == rows * b && rows > 0
    ensures a == b
  {
    if a < b { WiderIsMore(rows, a, b); } else if b < a { WiderIsMore(rows, b, a); }
  }

  lemma {:induction false} LaidLength(sentence: seq<int> -> Vector, padID: int, rows: seq<seq<int>>, width: nat)
    requires forall ts :: |sentence(ts)| == width
    ensures |Laid(sentence, padID, rows)| == |rows| * width
  {
    if rows != [] {
      LaidLength(sentence, padID, rows[..|rows| - 1], width);
      assert |rows| * width == (|rows| - 1) * width + width;
    }
  }

  lemma {:induction false} LaidAt(sentence: seq<int> -> Vector, padID: int, rows: seq<seq<int>>, width: nat, k: nat)
    requires forall ts :: |sentence(ts)| == width
    requires k < |rows|
    ensures 0 <= k * width <= (k + 1) * width <= |Laid(sentence, padID, rows)|
    ensures Laid(sentence, padID, rows)[k * width..(k + 1) * width] == sentence(Content(padID, rows[k]))
  {
    var n := |rows| - 1;
    var before, last := Laid(sentence, padID, rows[..n]), sentence(Content(padID, rows[n]));
    LaidLength(sentence, padID, rows[..n], width);
    assert Laid(sentence, padID, rows) == before + last && |last| == width;
    assert (k + 1) * width == k * width + width;
    if k < n {
      LaidAt(sentence, padID, rows[..n], width, k);
      assert (before + last)[k * width..(k + 1) * width] == before[k * width..(k + 1) * width];
    } else {
      assert (before + last)[k * width..(k + 1) * width] == last;
    }
  }

  // ---------- Rows ----------

  /** A row as the batch submits it: the tokens, padded to the batch's length. */
  function Padded(padID: int, tokens: seq<int>, seqLen: nat): seq<int>
    requires |tokens| <= seqLen
  {
    tokens + Pads(padID, seqLen - |tokens|)
  }

  function RowOf(padID: int, b: Batch, tokens: seq<seq<int>>, i: nat): seq<int>
    requires Fits(b, tokens)
  {
    if i < |b.indices| then Padded(padID, tokens[b.indices[i]], b.seqLen) else Pads(padID, b.seqLen)
  }

  /** The batch has room for its texts. */
  predicate Fits(b: Batch, tokens: seq<seq<int>>) {
    && |b.indices| <= b.rows && b.seqLen >= 0
    && forall k | 0 <= k < |b.indices| :: b.indices[k] < |tokens| && |tokens[b.indices[k]]| <= b.seqLen
  }

  // ---------- Where each text is ----------

  lemma {:induction false} CountBelow(idx: seq<nat>, k: nat)
    requires k < |idx|
    ensures Count(idx, idx[k]) >= 1
  {
    if k > 0 { CountBelow(idx[1..], k - 1); }
  }

  lemma {:induction false} CountTwice(idx: seq<nat>, k: nat, l: nat)
    requires k < l < |idx| && idx[k] == idx[l]
    ensures Count(idx, idx[k]) >= 2
  {
    if k > 0 { CountTwice(idx[1..], k - 1, l - 1); } else { CountBelow(idx[1..], l - 1); }
  }

  lemma {:induction false} OccursBelow(bs: seq<Batch>, j: nat, k: nat)
    requires j < |bs| && k < |bs[j].indices|
    ensures Occurs(bs, bs[j].indices[k]) >= 1
  {
    if j > 0 { OccursBelow(bs[1..], j - 1, k); } else { CountBelow(bs[0].indices, k); }
  }

  lemma {:induction false} OccursTwice(bs: seq<Batch>, j: nat, k: nat, j': nat, k': nat)
    requires j <= j' < |bs| && k < |bs[j].indices| && k' < |bs[j'].indices|
    requires bs[j].indices[k] == bs[j'].indices[k'] && (j, k) != (j', k')
    ensures Occurs(bs, bs[j].indices[k]) >= 2
  {
    if j > 0 {
      OccursTwice(bs[1..], j - 1, k, j' - 1, k');
    } else if j' > 0 {
      CountBelow(bs[0].indices, k);
      OccursBelow(bs[1..], j' - 1, k');
    } else {
      CountTwice(bs[0].indices, if k < k' then k else k', if k < k' then k' else k);
    }
  }

  lemma {:induction false} OccursSomewhere(bs: seq<Batch>, p: nat)
    requires Occurs(bs, p) > 0
    ensures exists j, k :: 0 <= j < |bs| && 0 <= k < |bs[j].indices| && bs[j].indices[k] == p
  {
    if p in bs[0].indices {
      var k :| 0 <= k < |bs[0].indices| && bs[0].indices[k] == p;
    } else {
      CountZero(bs[0].indices, p);
      OccursSomewhere(bs[1..], p);
      var j, k :| 0 <= j < |bs[1..]| && 0 <= k < |bs[1..][j].indices| && bs[1..][j].indices[k] == p;
      assert bs[j + 1].indices[k] == p;
    }
  }

  /** Position k of batch j stands for text p. */
  predicate At(bs: seq<Batch>, j: nat, k: nat, p: nat) {
    j < |bs| && k < |bs[j].indices| && bs[j].indices[k] == p
  }

  predicate Placed(bs: seq<Batch>, p: nat) {
    exists j: nat, k: nat | j < |bs| && k < |bs[j].indices| :: At(bs, j, k, p)
  }

  /** The batches' positions and the texts correspond one to one. */
  ghost predicate OneToOne(bs: seq<Batch>, n: nat) {
    && (forall j: nat, k: nat | j < |bs| && k < |bs[j].indices| :: bs[j].indices[k] < n)
    && (forall j: nat, k: nat, j': nat, k': nat, p: nat | At(bs, j, k, p) && At(bs, j', k', p) :: j == j' && k == k')
    && (forall p: nat | p < n :: Placed(bs, p))
  }

  lemma {:induction false} PartitionOneToOne(bs: seq<Batch>, lengths: seq<int>, batchB: seq<int>, seqB: seq<int>)
    requires Ladder(batchB) && Ladder(seqB) && Partitioned(bs, lengths, batchB, seqB)
    ensures OneToOne(bs, |lengths|)
  {
    InOwnLength(bs, lengths, batchB, seqB);
    forall j: nat, k: nat, j': nat, k': nat, p: nat | At(bs, j, k, p) && At(bs, j', k', p)
      ensures j == j' && k == k'
    {
      EachTextOnce(bs, lengths, batchB, seqB, p);
      if (j, k) != (j', k') {
        if j <= j' { OccursTwice(bs, j, k, j', k'); } else { OccursTwice(bs, j', k', j, k); }
      }
    }
    forall p: nat | p < |lengths| ensures Placed(bs, p) {
      EachTextOnce(bs, lengths, batchB, seqB, p);
      OccursSomewhere(bs, p);
      var j, k :| 0 <= j < |bs| && 0 <= k < |bs[j].indices| && bs[j].indices[k] == p;
      assert At(bs, j, k, p);
    }
  }

  /** Every batch fits its texts when none is longer than the longest length. */
  lemma {:induction false} PartitionFits(bs: seq<Batch>, tokens: seq<seq<int>>, lengths: seq<int>, batchB: seq<int>,
                                         seqB: seq<int>)
    requires Ladder(batchB) && Ladder(seqB) && Partitioned(bs, lengths, batchB, seqB)
    requires |lengths| == |tokens| && forall p | 0 <= p < |tokens| :: lengths[p] == |tokens[p]| <= Last(seqB)
    ensures forall j | 0 <= j < |bs| :: Fits(bs[j], tokens)
  {
    InOwnLength(bs, lengths, batchB, seqB);
    forall j | 0 <= j < |bs| ensures Fits(bs[j], tokens) {
      assert Shaped(bs[j], batchB, seqB);
      forall k | 0 <= k < |bs[j].indices| ensures |tokens[bs[j].indices[k]]| <= bs[j].seqLen {
        RungMeans(lengths[bs[j].indices[k]], seqB);
      }
      assert |tokens[bs[j].indices[0]]| <= bs[j].seqLen;
    }
  }

  // ---------- What each text gets ----------

  /** Which texts each batch held, and which batches failed. */
  datatype Report = Report(batches: seq<seq<nat>>, failed: set<nat>)

  function TextsOf(bs: seq<Batch>, work: seq<nat>): seq<seq<nat>>
    requires forall j, k | 0 <= j < |bs| && 0 <= k < |bs[j].indices| :: bs[j].indices[k] < |work|
  {
    seq(|bs|, j requires 0 <= j < |bs| =>
      seq(|bs[j].indices|, k requires 0 <= k < |bs[j].indices| => work[bs[j].indices[k]]))
  }

  /** Each text that is not blank is in exactly one batch. */
  ghost predicate Disjoint(batches: seq<seq<nat>>, texts: seq<string>) {
    && (forall j, k | 0 <= j < |batches| && 0 <= k < |batches[j]| ::
          batches[j][k] < |texts| && !Blank(texts[batches[j][k]]))
    && (forall j, j', i | 0 <= j < j' < |batches| && i in batches[j] :: i !in batches[j'])
    && (forall i: nat | i < |texts| && !Blank(texts[i]) :: InSome(batches, i))
  }

  predicate InSome(batches: seq<seq<nat>>, i: nat) {
    exists j | 0 <= j < |batches| :: i in batches[j]
  }

  predicate InFailed(r: Report, i: nat) {
    exists j | 0 <= j < |r.batches| && j in r.failed :: i in r.batches[j]
  }

  function Below(n: nat): (s: set<nat>)
    ensures forall j: nat :: j in s <==> j < n
  {
    if n == 0 then {} else Below(n - 1) + {n - 1}
  }

  /** Exactly one of the two is set: the error if the batch failed, the text's own vector if not. */
  predicate Settled(vectors: array<Option<Vector>>, errs: array<Option<EmbedError>>, i: nat, v: Vector, failed: bool)
    requires vectors.Length == errs.Length && i < errs.Length
    reads vectors, errs
  {
    if failed then vectors[i] == None && errs[i] == Some(ErrBatch) else vectors[i] == Some(v) && errs[i] == None
  }

  /** Two positions never write the same result. */
  lemma {:induction false} BatchesApart(bs: seq<Batch>, work: seq<nat>, j: nat)
    requires OneToOne(bs, |work|) && j < |bs| && forall p, q | 0 <= p < q < |work| :: work[p] != work[q]
    ensures forall j': nat, k: nat, k': nat |
              j' < |bs| && j' != j && k < |bs[j].indices| && k' < |bs[j'].indices| ::
              work[bs[j].indices[k]] != work[bs[j'].indices[k']]
    ensures forall k, l | 0 <= k < l < |bs[j].indices| :: bs[j].indices[k] != bs[j].indices[l]
  {
    forall j': nat, k: nat, k': nat | j' < |bs| && j' != j && k < |bs[j].indices| && k' < |bs[j'].indices|
      ensures work[bs[j].indices[k]] != work[bs[j'].indices[k']]
    {
      assert At(bs, j, k, bs[j].indices[k]) && At(bs, j', k', bs[j'].indices[k']);
    }
    forall k, l | 0 <= k < l < |bs[j].indices| ensures bs[j].indices[k] != bs[j].indices[l] {
      assert At(bs, j, k, bs[j].indices[k]) && At(bs, j, l, bs[j].indices[l]);
    }
  }

  // ---------- The embedder ----------

  class Shared {
    const tokenize: string -> seq<int>
    const device: Device
    const dim: nat
    const maxSeqLen: nat
    const seqB: seq<int>
    const batchB: seq<int>
    var closed: bool
    var inFlight: nat

    /** The ladders are those of seqBuckets and batchBuckets. */
    constructor (tokenize: string -> seq<int>, device: Device, dim: nat, maxSeqLen: nat, maxBatch: nat,
                 seqB: seq<int>, batchB: seq<int>)
      requires device.Valid() && SeqLadder(maxSeqLen, seqB) && BatchLadder(maxBatch, batchB) && maxBatch > 0
      ensures Valid() && !closed && inFlight == 0
      ensures this.tokenize == tokenize && this.device == device && this.dim == dim && this.maxSeqLen == maxSeqLen
    {
      this.tokenize, this.device, this.dim, this.maxSeqLen := tokenize, device, dim, maxSeqLen;
      this.seqB, this.batchB, closed, inFlight := seqB, batchB, false, 0;
      SeqLadderIsLadder(maxSeqLen, seqB);
    }

    ghost predicate Valid() {
      && device.Valid() && Ladder(seqB) && Ladder(batchB)
      && Last(seqB) == maxSeqLen && Last(batchB) > 0
    }

    /** encode: at most maxSeqLen tokens. */
    function Encode(text: string): seq<int> {
      var ids := tokenize(text);
      if |ids| > maxSeqLen then ids[..maxSeqLen] else ids
    }

    /** The embedding of one text on its own. */
    function Single(text: string): Vector {
      device.sentence(Content(device.padID, Encode(text)))
    }

    /** It is the embedding of the text's tokens, of the first maxSeqLen of them if there are more; of all
        those tokens, if the padding token is not among them. */
    lemma {:induction false} SingleExactly(text: string)
      ensures var ids := tokenize(text); var kept := if |ids| <= maxSeqLen then ids else ids[..maxSeqLen];
              && Single(text) == device.sentence(kept[..|kept| - multiset(kept)[device.padID]])
              && (device.padID !in kept ==> Single(text) == device.sentence(kept))
    {
      ContentExactly(device.padID, Encode(text));
      PaddingUnseen(device.padID, Encode(text), 0);
    }

    /** Registers a call unless the embedder is closed. */
    method Enter() returns (ok: bool)
      modifies this`inFlight
      ensures ok == !closed && inFlight == old(inFlight) + if ok then 1 else 0
    {
      if closed {
        return false;
      }
      inFlight := inFlight + 1;
      return true;
    }

    method Leave()
      requires inFlight > 0
      modifies this`inFlight
      ensures inFlight == old(inFlight) - 1
    {
      inFlight := inFlight - 1;
    }

    method BuildRows(b: Batch, tokens: seq<seq<int>>) returns (rows: seq<seq<int>>)
      requires Fits(b, tokens)
      ensures |rows| == b.rows && forall i | 0 <= i < b.rows :: rows[i] == RowOf(device.padID, b, tokens, i)
    {
      rows := [];
      for i := 0 to b.rows
        invariant |rows| == i && forall l | 0 <= l < i :: rows[l] == RowOf(device.padID, b, tokens, l)
      {
        var row := Pads(device.padID, b.seqLen);
        if i < |b.indices| {
          var text := tokens[b.indices[i]];
          row := text + row[|text|..];
        }
        rows := rows + [row];
      }
    }

    /** Runs one padded batch: one vector for each of its texts, or none at all. */
    method RunBatch(b: Batch, tokens: seq<seq<int>>) returns (out: seq<Vector>, ok: bool)
      requires Valid() && Fits(b, tokens)
      modifies device
      ensures ok ==> |out| == |b.indices| && forall k | 0 <= k < |out| ::
                out[k] == device.sentence(Content(device.padID, tokens[b.indices[k]]))
      ensures device.Faultless() && device.width == dim ==> ok
    {
      out, ok := [], true;
      ok := device.Try();  // an inference slot
      if !ok { return; }
      ok := device.Try();  // not cancelled meanwhile
      if !ok { return; }
      ok := device.Try();  // the shape is compiled
      if !ok { return; }
      var rows := BuildRows(b, tokens);
      var flat;
      flat, ok := device.Exec(rows);
      if !ok { return; }
      LaidLength(device.sentence, device.padID, rows, device.width);
      if |flat| != b.rows * dim {
        return [], false;
      }
      for k := 0 to |b.indices|
        invariant |out| == k && ok
        invariant forall l | 0 <= l < k :: out[l] == device.sentence(Content(device.padID, tokens[b.indices[l]]))
      {
        SameWidth(b.rows, device.width, dim);
        LaidAt(device.sentence, device.padID, rows, device.width, k);
        PaddingUnseen(device.padID, tokens[b.indices[k]], b.seqLen - |tokens[b.indices[k]]|);
        out := out + [flat[k * dim..(k + 1) * dim]];
      }
      ok := device.Try();  // releasing the tensors
    }

    /** One goroutine of EmbedBatchPartial: writes the texts of its own batch and no others. */
    method RunOne(b: Batch, work: seq<nat>, tokens: seq<seq<int>>, vectors: array<Option<Vector>>,
                  errs: array<Option<EmbedError>>)
      returns (ok: bool)
      requires Valid() && Fits(b, tokens) && |work| == |tokens| && vectors.Length == errs.Length
      requires forall p | 0 <= p < |work| :: work[p] < errs.Length
      requires forall p, q | 0 <= p < q < |work| :: work[p] != work[q]
      requires forall k, l | 0 <= k < l < |b.indices| :: b.indices[k] != b.indices[l]
      modifies device, vectors, errs
      ensures forall k | 0 <= k < |b.indices| ::
                var p := b.indices[k];
                && errs[work[p]] == (if ok then old(errs[work[p]]) else Some(ErrBatch))
                && vectors[work[p]] == if ok then Some(device.sentence(Content(device.padID, tokens[p])))
                                       else old(vectors[work[p]])
      ensures forall i | 0 <= i < errs.Length && (forall k | 0 <= k < |b.indices| :: work[b.indices[k]] != i) ::
                errs[i] == old(errs[i]) && vectors[i] == old(vectors[i])
      ensures device.Faultless() && device.width == dim ==> ok
    {
      var out;
      out, ok := RunBatch(b, tokens);
      for k := 0 to |b.indices|
        invariant forall l | 0 <= l < k ::
                    var p := b.indices[l];
                    && errs[work[p]] == (if ok then old(errs[work[p]]) else Some(ErrBatch))
                    && vectors[work[p]] == if ok then Some(device.sentence(Content(device.padID, tokens[p])))
                                           else old(vectors[work[p]])
        invariant forall i | 0 <= i < errs.Length && (forall l | 0 <= l < k :: work[b.indices[l]] != i) ::
                    errs[i] == old(errs[i]) && vectors[i] == old(vectors[i])
      {
        var i := work[b.indices[k]];
        if !ok {
          errs[i] := Some(ErrBatch);
          continue;
        }
        vectors[i] := Some(out[k]);
      }
    }

    /** The texts worth embedding, in order, each with its tokens. */
    ghost predicate Working(prefix: string, texts: seq<string>, work: seq<nat>, tokens: seq<seq<int>>) {
      && |work| == |tokens|
      && (forall p | 0 <= p < |work| ::
            work[p] < |texts| && !Blank(texts[work[p]]) && tokens[p] == Encode(prefix + texts[work[p]]))
      && (forall p, q | 0 <= p < q < |work| :: work[p] < work[q])
      && (forall i: nat | i < |texts| && !Blank(texts[i]) :: i in work)
    }

    /** Rejects the blank texts and tokenizes the others. */
    method Tokenize(prefix: string, texts: seq<string>, errs: array<Option<EmbedError>>)
      returns (work: seq<nat>, tokens: seq<seq<int>>, lengths: seq<int>)
      requires errs.Length == |texts| && forall i | 0 <= i < |texts| :: errs[i] == None
      modifies errs
      ensures Working(prefix, texts, work, tokens)
      ensures |lengths| == |tokens| && forall p | 0 <= p < |tokens| :: lengths[p] == |tokens[p]| <= maxSeqLen
      ensures forall p | 0 <= p < |work| ::
                var ids := tokenize(prefix + texts[work[p]]);
                tokens[p] == if |ids| <= maxSeqLen then ids else ids[..maxSeqLen]
      ensures forall i | 0 <= i < |texts| :: errs[i] == if Blank(texts[i]) then Some(ErrBlank) else None
    {
      work, tokens, lengths := [], [], [];
      for i := 0 to |texts|
        invariant Working(prefix, texts[..i], work, tokens)
        invariant |lengths| == |tokens| && forall p | 0 <= p < |tokens| :: lengths[p] == |tokens[p]| <= maxSeqLen
        invariant forall l | 0 <= l < |texts| ::
                    errs[l] == if l < i && Blank(texts[l]) then Some(ErrBlank) else None
      {
        SliceNext(texts, i);
        if Blank(texts[i]) {
          errs[i] := Some(ErrBlank);
          continue;
        }
        var row := Encode(prefix + texts[i]);
        work, tokens, lengths := work + [i], tokens + [row], lengths + [|row|];
        assert work[|work| - 1] == i;
      }
      assert texts[..|texts|] == texts;
    }

    /** Runs the batches, in any order. */
    method RunAll(bs: seq<Batch>, work: seq<nat>, tokens: seq<seq<int>>, vectors: array<Option<Vector>>,
                  errs: array<Option<EmbedError>>)
      returns (ghost failed: set<nat>)
      requires Valid() && OneToOne(bs, |work|) && |work| == |tokens| && vectors.Length == errs.Length
      requires forall j | 0 <= j < |bs| :: Fits(bs[j], tokens)
      requires forall p | 0 <= p < |work| :: work[p] < errs.Length
      requires forall p, q | 0 <= p < q < |work| :: work[p] != work[q]
      requires forall i | 0 <= i < errs.Length :: vectors[i] == None
      requires forall p | 0 <= p < |work| :: errs[work[p]] == None
      requires vectors as object != errs as object
      modifies device, vectors, errs
      ensures forall j: nat, k: nat | j < |bs| && k < |bs[j].indices| ::
                Settled(vectors, errs, work[bs[j].indices[k]], VectorOf(tokens[bs[j].indices[k]]), j in failed)
      ensures forall i | 0 <= i < errs.Length && i !in work :: errs[i] == old(errs[i]) && vectors[i] == None
      ensures device.Faultless() && device.width == dim ==> failed == {}
    {
      failed := {};
      var rest := Below(|bs|);
      while rest != {}
        invariant forall j: nat, k: nat | j < |bs| && k < |bs[j].indices| ::
                    var i := work[bs[j].indices[k]];
                    if j in rest then vectors[i] == None && errs[i] == None
                    else Settled(vectors, errs, i, VectorOf(tokens[bs[j].indices[k]]), j in failed)
        invariant forall i | 0 <= i < errs.Length && i !in work :: errs[i] == old(errs[i]) && vectors[i] == None
        invariant device.Faultless() && device.width == dim ==> failed == {}
        invariant rest <= Below(|bs|)
        invariant failed !! rest
        decreases rest
      {
        var j: nat :| j in rest;
        BatchesApart(bs, work, j);
        var ok := RunOne(bs[j], work, tokens, vectors, errs);
        if !ok {
          failed := failed + {j};
        }
        rest := rest - {j};
      }
    }

    /** The embedding of the given tokens. */
    function VectorOf(tokens: seq<int>): Vector {
      device.sentence(Content(device.padID, tokens))
    }

    lemma {:induction false} TextsDisjoint(prefix: string, texts: seq<string>, work: seq<nat>,
                                           tokens: seq<seq<int>>, bs: seq<Batch>)
      requires Working(prefix, texts, work, tokens) && OneToOne(bs, |work|)
      ensures Disjoint(TextsOf(bs, work), texts)
    {
      var batches := TextsOf(bs, work);
      forall j, j', i | 0 <= j < j' < |batches| && i in batches[j] ensures i !in batches[j'] {
        BatchesApart(bs, work, j);
      }
      forall i: nat | i < |texts| && !Blank(texts[i]) ensures InSome(batches, i) {
        var p :| 0 <= p < |work| && work[p] == i;
        assert Placed(bs, p);
        var j: nat, k: nat :| j < |bs| && k < |bs[j].indices| && At(bs, j, k, p);
        assert batches[j][k] == i;
      }
    }

    lemma {:induction false} AllTexts(prefix: string, texts: seq<string>, work: seq<nat>,
                                      tokens: seq<seq<int>>, bs: seq<Batch>, failed: set<nat>,
                                      vectors: array<Option<Vector>>, errs: array<Option<EmbedError>>)
      requires Working(prefix, texts, work, tokens) && OneToOne(bs, |work|)
      requires vectors.Length == errs.Length == |texts|
      requires forall j: nat, k: nat | j < |bs| && k < |bs[j].indices| ::
                 Settled(vectors, errs, work[bs[j].indices[k]], VectorOf(tokens[bs[j].indices[k]]), j in failed)
      requires forall i: nat | i < |texts| && i !in work :: errs[i] == Some(ErrBlank) && vectors[i] == None
      ensures Disjoint(TextsOf(bs, work), texts)
      ensures forall i: nat | i < |texts| ::
                && (vectors[i].Some? <==> errs[i] == None)
                && (vectors[i].Some? ==> vectors[i].value == Single(prefix + texts[i]))
                && errs[i] == if Blank(texts[i]) then Some(ErrBlank)
                              else if InFailed(Report(TextsOf(bs, work), failed), i) then Some(ErrBatch) else None
    {
      var batches := TextsOf(bs, work);
      TextsDisjoint(prefix, texts, work, tokens, bs);
      forall i: nat | i < |texts|
        ensures vectors[i].Some? <==> errs[i] == None
        ensures vectors[i].Some? ==> vectors[i].value == Single(prefix + texts[i])
        ensures errs[i] == if Blank(texts[i]) then Some(ErrBlank)
                           else if InFailed(Report(batches, failed), i) then Some(ErrBatch) else None
      {
        if !Blank(texts[i]) {
          var p :| 0 <= p < |work| && work[p] == i;
          assert Placed(bs, p);
          var j: nat, k: nat :| j < |bs| && k < |bs[j].indices| && At(bs, j, k, p);
          assert Settled(vectors, errs, work[p], VectorOf(tokens[p]), j in failed);
          assert batches[j][k] == i;
        }
      }
    }

    /** Every text gets the given error. */
    method FailAll(errs: array<Option<EmbedError>>, e: EmbedError)
      modifies errs
      ensures forall i | 0 <= i < errs.Length :: errs[i] == Some(e)
    {
      for i := 0 to errs.Length
        invariant forall l | 0 <= l < i :: errs[l] == Some(e)
      {
        errs[i] := Some(e);
      }
    }

    /** The part of EmbedBatchPartial behind its checks. */
    method EmbedAll(prefix: string, texts: seq<string>, vectors: array<Option<Vector>>, errs: array<Option<EmbedError>>)
      returns (ghost report: Report)
      requires Valid() && vectors.Length == errs.Length == |texts| && vectors as object != errs as object
      requires forall i | 0 <= i < |texts| :: vectors[i] == None && errs[i] == None
      modifies device, vectors, errs
      ensures Disjoint(report.batches, texts)
      ensures forall i: nat | i < |texts| ::
                && (vectors[i].Some? <==> errs[i] == None)
                && (vectors[i].Some? ==> vectors[i].value == Single(prefix + texts[i]))
                && errs[i] == if Blank(texts[i]) then Some(ErrBlank)
                              else if InFailed(report, i) then Some(ErrBatch) else None
      ensures device.Faultless() && device.width == dim ==> report.failed == {}
    {
      report := Report([], {});
      var work, tokens, lengths := Tokenize(prefix, texts, errs);
      if |work| == 0 {
        return;
      }
      var batches := Bucketize(lengths, batchB, seqB);  // no error: neither ladder is empty
      PartitionOneToOne(batches.value, lengths, batchB, seqB);
      PartitionFits(batches.value, tokens, lengths, batchB, seqB);
      ghost var failed := RunAll(batches.value, work, tokens, vectors, errs);
      report := Report(TextsOf(batches.value, work), failed);
      AllTexts(prefix, texts, work, tokens, batches.value, failed, vectors, errs);
    }

    /** Embeds texts in batches, whatever the order the batches run in and whichever of them fail:
        each text gets its own vector, the one it would get alone, or an error, never both; and a
        text is in error exactly if it is blank or its own batch failed. */
    method EmbedBatchPartial(prefix: string, texts: seq<string>, cancelled: bool)
      returns (vectors: array<Option<Vector>>, errs: array<Option<EmbedError>>, ghost report: Report)
      requires Valid()
      modifies this`inFlight, device
      ensures fresh(vectors) && fresh(errs) && vectors.Length == errs.Length == |texts|
      ensures inFlight == old(inFlight)
      ensures forall i | 0 <= i < |texts| :: vectors[i].Some? <==> errs[i] == None
      ensures forall i | 0 <= i < |texts| && vectors[i].Some? :: vectors[i].value == Single(prefix + texts[i])
      ensures forall i | 0 <= i < |texts| && vectors[i].Some? ::
                var ids := tokenize(prefix + texts[i]);
                var kept := if |ids| <= maxSeqLen then ids else ids[..maxSeqLen];
                && vectors[i].value == device.sentence(kept[..|kept| - multiset(kept)[device.padID]])
                && (device.padID !in kept ==> vectors[i].value == device.sentence(kept))
      ensures closed ==> forall i | 0 <= i < |texts| :: errs[i] == Some(ErrClosed)
      ensures !closed && cancelled ==> forall i | 0 <= i < |texts| :: errs[i] == Some(ErrContext)
      ensures !closed && !cancelled ==> Disjoint(report.batches, texts)
      ensures !closed && !cancelled ==> forall i | 0 <= i < |texts| ::
                errs[i] == if Blank(texts[i]) then Some(ErrBlank)
                           else if InFailed(report, i) then Some(ErrBatch) else None
      ensures !closed && !cancelled ==> forall i | 0 <= i < |texts| ::
                errs[i] == Some(ErrBlank) <==> forall k | 0 <= k < |texts[i]| :: IsSpace(texts[i][k])
      ensures !closed && !cancelled && device.Faultless() && device.width == dim ==> report.failed == {}
    {
      vectors := new Option<Vector>[|texts|](i => None);
      errs := new Option<EmbedError>[|texts|](i => None);
      report := Report([], {});
      if |texts| == 0 {
        return;
      }
      var open := Enter();
      if !open {
        FailAll(errs, ErrClosed);
        return;
      }
      if cancelled {
        FailAll(errs, ErrContext);
        Leave();
        return;
      }
      report := EmbedAll(prefix, texts, vectors, errs);
      forall text { SingleExactly(text); }
      Leave();
    }
  }

  /** What a batch of texts gives one of them is what it would get alone. */
  method Embed(s: Shared, prefix: string, text: string, cancelled: bool)
    returns (v: Option<Vector>, e: Option<EmbedError>)
    requires s.Valid()
    modifies s`inFlight, s.device
    ensures v.Some? <==> e == None
    ensures v.Some? ==> v.value == s.Single(prefix + text) && !s.closed && !cancelled && !Blank(text)
    ensures !s.closed && !cancelled && !Blank(text) && s.device.Faultless() && s.device.width == s.dim ==> v.Some?
  {
    var vectors, errs, report := s.EmbedBatchPartial(prefix, [text], cancelled);
    assert [text][0] == text;
    v, e := vectors[0], errs[0];
  }

  /** All the vectors, or none. */
  method EmbedBatch(s: Shared, prefix: string, texts: seq<string>, cancelled: bool) returns (r: Option<seq<Vector>>)
    requires s.Valid()
    modifies s`inFlight, s.device
    ensures r.Some? ==> |r.value| == |texts| && forall i | 0 <= i < |texts| :: r.value[i] == s.Single(prefix + texts[i])
    ensures r == None ==> |texts| > 0
    ensures (exists i :: 0 <= i < |texts| && Blank(texts[i])) ==> r == None
    ensures (!s.closed && !cancelled && s.device.Faultless() && s.device.width == s.dim
             && forall i | 0 <= i < |texts| :: !Blank(texts[i])) ==> r.Some?
  {
    if |texts| == 0 {
      return Some([]);
    }
    var vectors, errs, report := s.EmbedBatchPartial(prefix, texts, cancelled);
    var out: seq<Vector> := [];
    for i := 0 to |texts|
      invariant |out| == i && forall l | 0 <= l < i :: out[l] == s.Single(prefix + texts[l]) && vectors[l].Some?
    {
      if errs[i].Some? {
        return None;
      }
      out := out + [vectors[i].value];
    }
    return Some(out);
  }
}
