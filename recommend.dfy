/** Turning the neighbour search's answer into scored recommendations. */
module Recommend {
  import opened Jobs

  /** What the neighbour search answers for one query: distances and row
      indices, nearest first. */
  datatype Neighbours = Neighbours(distances: seq<real>, indices: seq<int>)

  /** Every index names a job of a corpus of `n` jobs. */
  predicate IndicesIn(indices: seq<int>, n: nat)
  {
    forall m :: 0 <= m < |indices| ==> 0 <= indices[m] < n
  }

  /** The similarity score for a distance: distance and score sum to one,
      so distances between 0 and 2 give scores between -1 and 1. */
  function Score(dist: real): (s: real)
    ensures s + dist == 1.0
    ensures 0.0 <= dist <= 2.0 ==> -1.0 <= s <= 1.0
  {
    1.0 - dist
  }

  /** The smaller of two lengths. */
  function Min(a: nat, b: nat): (m: nat)
    ensures m <= a && m <= b && (m == a || m == b)
  {
    if a < b then a else b
  }

  /** The results for `zip(distances, indices)`: one recommendation per
      pair, stopping at the shorter of the two. */
  function Assemble(jobs: seq<Job>, distances: seq<real>, indices: seq<int>): (results: seq<Recommendation>)
    requires IndicesIn(indices, |jobs|)
    ensures |results| == Min(|distances|, |indices|)
    ensures forall m :: 0 <= m < |results| ==> results[m].job in jobs
  {
    if |distances| == 0 || |indices| == 0 then []
    else [Recommendation(jobs[indices[0]], Score(distances[0]))]
         + Assemble(jobs, distances[1..], indices[1..])
  }

  /** One result per neighbour pair, in neighbour order; result m is the job
      at indices[m], scored 1 - distances[m]. */
  lemma {:induction false} AssembleAt(jobs: seq<Job>, distances: seq<real>, indices: seq<int>)
    requires IndicesIn(indices, |jobs|)
    ensures |Assemble(jobs, distances, indices)| == Min(|distances|, |indices|)
    ensures forall m :: 0 <= m < Min(|distances|, |indices|) ==>
              Assemble(jobs, distances, indices)[m]
              == Recommendation(jobs[indices[m]], 1.0 - distances[m])
  {
    if |distances| > 0 && |indices| > 0 {
      AssembleAt(jobs, distances[1..], indices[1..]);
    }
  }

  /** A search that answers k pairs yields exactly k results. */
  lemma AssembleCount(jobs: seq<Job>, distances: seq<real>, indices: seq<int>, k: nat)
    requires IndicesIn(indices, |jobs|)
    requires |distances| == k && |indices| == k
    ensures |Assemble(jobs, distances, indices)| == k
  {
    AssembleAt(jobs, distances, indices);
  }

  /** Scores order the results opposite to distances: a strictly smaller
      distance gives a strictly larger score, and equal distances equal
      scores. */
  lemma ScoreOrder(jobs: seq<Job>, distances: seq<real>, indices: seq<int>, a: nat, b: nat)
    requires IndicesIn(indices, |jobs|)
    requires a < Min(|distances|, |indices|) && b < Min(|distances|, |indices|)
    ensures |Assemble(jobs, distances, indices)| == Min(|distances|, |indices|)
    ensures var r := Assemble(jobs, distances, indices);
            && (distances[a] < distances[b] <==> r[a].score > r[b].score)
            && (distances[a] == distances[b] <==> r[a].score == r[b].score)
  {
    AssembleAt(jobs, distances, indices);
  }

  /** Neighbours in ascending distance give results in descending score. */
  lemma DescendingScores(jobs: seq<Job>, distances: seq<real>, indices: seq<int>)
    requires IndicesIn(indices, |jobs|)
    requires forall a, b :: 0 <= a <= b < |distances| ==> distances[a] <= distances[b]
    ensures var r := Assemble(jobs, distances, indices);
            forall a, b :: 0 <= a <= b < |r| ==> r[a].score >= r[b].score
  {
    AssembleAt(jobs, distances, indices);
  }
}
