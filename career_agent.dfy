/** The career agent: a job corpus, the embedding matrix built over it, and
    the recommendation and summary operations that use them. */
module Agent {
  import opened Strings
  import opened Jobs
  import opened Index
  import opened Recommend

  class CareerAgent {
    /** The corpus, in file order; fixed once loaded. */
    const jobs: seq<Job>
    /** The rows of the stacked embedding matrix, row i for job i. */
    var embeddings: seq<seq<real>>
    /** Whether the index has been built. */
    var indexed: bool

    /** Once built, the matrix has one row per job, all of one length, and
        at least one column. */
    ghost predicate Valid()
      reads this
    {
      indexed ==> Stackable(embeddings) && |embeddings| == |jobs| && |embeddings[0]| > 0
    }

    /** The embedding dimension: the number of columns of the matrix. */
    function Dim(): (d: nat)
      reads this
      requires Valid() && indexed
      ensures d > 0
    {
      |embeddings[0]|
    }

    /** An agent over a loaded corpus, before its index is built. */
    constructor (jobs: seq<Job>)
      ensures Valid()
      ensures this.jobs == jobs && embeddings == [] && !indexed
    {
      this.jobs := jobs;
      embeddings := [];
      indexed := false;
    }

    /** Embeds every job's index text in corpus order, substituting the
        1536-long zero vector for each failed call, and stores the rows if
        they stack into a matrix with at least one column, the least that
        `NearestNeighbors.fit` accepts; otherwise construction fails and
        nothing is stored. */
    method BuildIndex(embed: Embedder) returns (ok: bool)
      requires Valid()
      modifies this
      ensures Valid()
      ensures ok <==> Stackable(IndexRows(embed, jobs)) && |IndexRows(embed, jobs)[0]| > 0
      ensures ok ==> indexed && embeddings == IndexRows(embed, jobs)
      ensures ok ==> forall i :: 0 <= i < |jobs| ==>
                       embeddings[i] == OrZeros(embed(i, IndexText(jobs[i])), FallbackDim)
      ensures !ok ==> embeddings == old(embeddings) && indexed == old(indexed)
    {
      var texts := IndexTexts(jobs);
      var rows: seq<seq<real>> := [];
      var i := 0;
      while i < |texts|
        invariant 0 <= i <= |texts|
        invariant rows == EmbedRows(embed, texts[..i])
      {
        var e := embed(i, texts[i]);
        match e {
          case Embedded(vector) =>
            rows := rows + [vector];
          case EmbedFailed(_) =>
            rows := rows + [Zeros(FallbackDim)];
        }
        assert texts[..i + 1][..i] == texts[..i];
        i := i + 1;
      }
      assert texts[..i] == texts;
      ok := Stackable(rows) && |rows[0]| > 0;
      if ok {
        embeddings := rows;
        indexed := true;
        IndexRowsAt(embed, jobs);
      }
    }

    /** Embeds the user text (zeros of the matrix's dimension if that
        fails), asks the neighbour search for k neighbours and scores each
        returned pair, in the order returned. */
    method RecommendRoles(embed: string -> Embedding, userText: string, k: int,
                          search: (seq<real>, int) -> Neighbours)
      returns (results: seq<Recommendation>)
      requires Valid() && indexed
      requires IndicesIn(search(OrZeros(embed(userText), Dim()), k).indices, |jobs|)
      ensures var nb := search(OrZeros(embed(userText), Dim()), k);
              results == Assemble(jobs, nb.distances, nb.indices)
      ensures var nb := search(OrZeros(embed(userText), Dim()), k);
              && |results| == Min(|nb.distances|, |nb.indices|)
              && forall m :: 0 <= m < |results| ==>
                   results[m] == Recommendation(jobs[nb.indices[m]], 1.0 - nb.distances[m])
    {
      var query := OrZeros(embed(userText), |embeddings[0]|);
      var nb := search(query, k);
      var distances, indices := nb.distances, nb.indices;
      var n := Min(|distances|, |indices|);
      results := [];
      var j := 0;
      while j < n
        invariant 0 <= j <= n
        invariant |results| == j
        invariant forall m :: 0 <= m < j ==>
                    results[m] == Recommendation(jobs[indices[m]], 1.0 - distances[m])
      {
        var job := jobs[indices[j]];
        var sim := Score(distances[j]);
        results := results + [Recommendation(job, sim)];
        j := j + 1;
      }
      AssembleAt(jobs, distances, indices);
    }

    /** Renders one block per role, in order, and joins them with newlines. */
    method SummaryForPrompt(topRoles: seq<Recommendation>) returns (s: string)
      ensures s == Summary(topRoles)
    {
      var blocks: seq<string> := [];
      var i := 0;
      while i < |topRoles|
        invariant 0 <= i <= |topRoles|
        invariant |blocks| == i
        invariant forall m :: 0 <= m < i ==> blocks[m] == RoleBlock(topRoles[m].job)
      {
        var job := topRoles[i].job;
        blocks := blocks + [RoleBlock(job)];
        i := i + 1;
      }
      assert blocks == RoleBlocks(topRoles);
      s := Join("\n", blocks);
    }
  }
}
