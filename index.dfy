/** The rows of the job index: one embedding per index text, with a zero
    vector substituted wherever the embedder fails, and numpy's condition
    for stacking them into a matrix. */
module Index {
  import opened Jobs

  /** Length of the zero vector that stands in for a failed job embedding. */
  const FallbackDim: nat := 1536

  /** What one call of the embedder produces: a vector, or an error. */
  datatype Embedding = Embedded(vector: seq<real>) | EmbedFailed(message: string)

  /** The embedder as the build loop sees it: `embed(i, t)` is the outcome
      of the loop's call number i, made for text t. Each call is a separate
      provider run, so two calls for the same text may have different
      outcomes. */
  type Embedder = (nat, string) -> Embedding

  /** A vector of `n` zeros. */
  function Zeros(n: nat): (z: seq<real>)
    ensures |z| == n
    ensures forall i :: 0 <= i < n ==> z[i] == 0.0
  {
    seq(n, _ => 0.0)
  }

  /** The vector of a successful embedding, kept unchanged; for a failed
      one, zeros of length `dim`. */
  function OrZeros(e: Embedding, dim: nat): (v: seq<real>)
    ensures e.Embedded? ==> v == e.vector
    ensures e.EmbedFailed? ==> |v| == dim
    ensures e.EmbedFailed? ==> forall i :: 0 <= i < dim ==> v[i] == 0.0
  {
    match e
    case Embedded(vector) => vector
    case EmbedFailed(_) => Zeros(dim)
  }

  /** The rows the build loop appends for `texts`, in order; text i is
      embedded by call number i. */
  function EmbedRows(embed: Embedder, texts: seq<string>): (rows: seq<seq<real>>)
    ensures |rows| == |texts|
  {
    if |texts| == 0 then []
    else
      var last := |texts| - 1;
      EmbedRows(embed, texts[..last]) + [OrZeros(embed(last, texts[last]), FallbackDim)]
  }

  /** The rows of the index built over `jobs`. */
  function IndexRows(embed: Embedder, jobs: seq<Job>): (rows: seq<seq<real>>)
    ensures |rows| == |jobs|
  {
    EmbedRows(embed, IndexTexts(jobs))
  }

  /** Every row has the length of the first. */
  predicate Uniform(rows: seq<seq<real>>)
  {
    forall i :: 0 <= i < |rows| ==> |rows[i]| == |rows[0]|
  }

  /** `np.vstack(rows)` succeeds: there is at least one row and any two
      rows have the same length. */
  predicate Stackable(rows: seq<seq<real>>)
    ensures Stackable(rows) <==>
              |rows| > 0 &&
              forall i, j :: 0 <= i < |rows| && 0 <= j < |rows| ==> |rows[i]| == |rows[j]|
  {
    |rows| > 0 && Uniform(rows)
  }

  /** One row per text, and row i is the outcome of call i for text i or,
      when that call failed, the 1536-long zero vector. */
  lemma {:induction false} EmbedRowsAt(embed: Embedder, texts: seq<string>)
    ensures |EmbedRows(embed, texts)| == |texts|
    ensures forall i :: 0 <= i < |texts| ==>
              EmbedRows(embed, texts)[i] == OrZeros(embed(i, texts[i]), FallbackDim)
  {
    if |texts| > 0 {
      var init := texts[..|texts| - 1];
      EmbedRowsAt(embed, init);
      forall i | 0 <= i < |texts|
        ensures EmbedRows(embed, texts)[i] == OrZeros(embed(i, texts[i]), FallbackDim)
      {
        if i < |texts| - 1 {
          assert init[i] == texts[i];
        }
      }
    }
  }

  /** Row i of the index belongs to job i. */
  lemma IndexRowsAt(embed: Embedder, jobs: seq<Job>)
    ensures |IndexRows(embed, jobs)| == |jobs|
    ensures forall i :: 0 <= i < |jobs| ==>
              IndexRows(embed, jobs)[i] == OrZeros(embed(i, IndexText(jobs[i])), FallbackDim)
  {
    EmbedRowsAt(embed, IndexTexts(jobs));
  }

  /** If every embedding fails, the index still stacks: all rows are the
      1536-long zero vector. */
  lemma AllFailedStackable(embed: Embedder, jobs: seq<Job>)
    requires |jobs| > 0
    requires forall i :: 0 <= i < |jobs| ==> embed(i, IndexText(jobs[i])).EmbedFailed?
    ensures Stackable(IndexRows(embed, jobs))
    ensures forall i :: 0 <= i < |jobs| ==> IndexRows(embed, jobs)[i] == Zeros(FallbackDim)
  {
    IndexRowsAt(embed, jobs);
  }

  /** If every embedding succeeds with one length, the index stacks. */
  lemma AllEmbeddedStackable(embed: Embedder, jobs: seq<Job>, dim: nat)
    requires |jobs| > 0
    requires forall i :: 0 <= i < |jobs| ==>
               embed(i, IndexText(jobs[i])).Embedded? && |embed(i, IndexText(jobs[i])).vector| == dim
    ensures Stackable(IndexRows(embed, jobs))
    ensures |IndexRows(embed, jobs)[0]| == dim
  {
    IndexRowsAt(embed, jobs);
  }

  /** A successful embedding whose length is not 1536 next to a failed one
      makes stacking, and so the whole build, fail. */
  lemma MixedDimensionsUnstackable(embed: Embedder, jobs: seq<Job>, i: nat, j: nat)
    requires i < |jobs| && j < |jobs|
    requires embed(i, IndexText(jobs[i])).Embedded?
    requires |embed(i, IndexText(jobs[i])).vector| != FallbackDim
    requires embed(j, IndexText(jobs[j])).EmbedFailed?
    ensures !Stackable(IndexRows(embed, jobs))
  {
    IndexRowsAt(embed, jobs);
  }

  /** Two identical jobs do not guarantee a build: the first call for their
      text may succeed with a length other than 1536 and the second fail. */
  lemma RepeatedJobUnstackable(embed: Embedder, a: Job)
    requires embed(0, IndexText(a)).Embedded?
    requires |embed(0, IndexText(a)).vector| != FallbackDim
    requires embed(1, IndexText(a)).EmbedFailed?
    ensures !Stackable(IndexRows(embed, [a, a]))
  {
    MixedDimensionsUnstackable(embed, [a, a], 0, 1);
  }

  /** An empty corpus cannot be stacked (numpy refuses to stack no arrays). */
  lemma EmptyCorpusUnstackable(embed: Embedder)
    ensures !Stackable(IndexRows(embed, []))
  {
  }
}
