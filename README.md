# Career agent recommender: a Dafny model

This project models the bookkeeping core of the `CareerAgent` class of an
AI career-coach application. The class builds an embedding index over a small
corpus of job postings. It answers a user's free-text profile with the
nearest postings, scored by similarity, and renders those postings as a
text summary for a roadmap-generation prompt. The external calls are not
part of the model. The embedding provider is a function parameter that
returns a vector or an error. During the index build it takes the call
number as well as the text, so two calls for the same text can have
different outcomes, as two separate provider runs can. The nearest-neighbour search is a function
parameter that returns distances and row indices.

Modules:

- `Strings` (`strings.dfy`): Python's `str.join` and `str.split`, with
  their laws. These are the join of two lists and the split/join round trip.
- `Jobs` (`jobs.dfy`): the `Job` and `Recommendation` records, the index
  text of a job (`title + " -- " + description`), the summary block of a
  role and the prompt summary.
- `Index` (`index.dfy`): the embedding outcome, the zero-vector fallback,
  the rows the build loop produces (`EmbedRows`), and numpy's stacking
  condition (`Stackable`).
- `Recommend` (`recommend.dfy`): the neighbour-search answer and the
  assembly of scored results from it (`Assemble`, score `1 - distance`).
- `Agent` (`career_agent.dfy`): class `CareerAgent`. It holds the corpus
  `jobs`, the matrix rows `embeddings` and an `indexed` flag. Its methods
  are `BuildIndex`, `RecommendRoles` and `SummaryForPrompt`, each a loop
  proved against the functions above.

Behaviour of the code worth noting:

- Stacking needs at least one row, because `np.vstack([])` raises. So an
  empty corpus makes construction fail.
- `NearestNeighbors.fit` refuses a matrix with no columns. So a build in
  which every embedding is the empty vector fails as well.
- Results follow `zip`, so their number is the shorter of the two
  neighbour arrays.
- `k` is passed to the search unchanged. Nothing clamps it.
- Ties between equal distances are ordered as the search returns them. No
  tie-break by corpus index is imposed.
- In Python, `__init__` raises when stacking fails. Here the constructor
  only stores the corpus. `BuildIndex` then reports failure with
  `ok == false` and leaves the fields unchanged, as the Python code does
  when it raises before assigning `self.embeddings`.

## Model

| member | source | states |
|---|---|---|
| `Jobs.IndexText` | career_agent.py:41 | the index text is the title, then `" -- "`, then the description, each at its exact position |
| `Jobs.IndexTexts` | career_agent.py:41 | one index text per job, in corpus order; text i is the index text of job i |
| `Index.EmbedRows` | career_agent.py:42-50 | the build loop appends exactly one row per text |
| `Index.EmbedRowsAt` | career_agent.py:44-50 | row i is the vector returned by call number i, made for text i, unchanged, or the 1536-long zero vector when that call failed; no failure stops the loop |
| `Index.IndexRowsAt` | career_agent.py:41-50 | the index has as many rows as there are jobs, and row i comes from the index text of job i |
| `Index.Zeros` | career_agent.py:50 | the fallback vector has the requested length and every entry is zero |
| `Index.OrZeros` | career_agent.py:45-50 | the try/except choice: a successful embedding is kept unchanged; a failed one becomes all zeros of the requested length |
| `Index.IndexRows` | career_agent.py:41-50 | the rows of the index built over a corpus, one per job |
| `Index.Stackable` | career_agent.py:52 | `np.vstack` succeeds exactly when there is at least one row and any two rows have the same length |
| `Index.AllFailedStackable` | career_agent.py:44-52 | when every embedding fails, stacking still succeeds and every row is the 1536-long zero vector |
| `Index.AllEmbeddedStackable` | career_agent.py:44-52 | when every embedding succeeds with one length d, stacking succeeds with d columns |
| `Index.MixedDimensionsUnstackable` | career_agent.py:46-52 | a successful embedding whose length is not 1536, next to a failed one, makes stacking fail |
| `Index.RepeatedJobUnstackable` | career_agent.py:44-52 | two identical jobs can still make the build fail: the first call for their text succeeds with a length other than 1536 and the second fails |
| `Index.EmptyCorpusUnstackable` | career_agent.py:41-52 | an empty corpus cannot be stacked |
| `Agent.CareerAgent.constructor` | career_agent.py:35-37 | the agent holds the given corpus and no index yet |
| `Agent.CareerAgent.Dim` | career_agent.py:64 | the embedding dimension of a built index, `shape[1]`, is at least one |
| `Agent.CareerAgent.BuildIndex` | career_agent.py:40-56 | succeeds exactly when the fallback-substituted rows stack into a matrix with at least one column; on success the matrix is those rows, with row i from job i; on failure nothing changes; the one-row-per-job invariant holds afterwards |
| `Agent.CareerAgent.RecommendRoles` | career_agent.py:58-72 | the search is asked about the user's embedding, or zeros of the matrix's dimension when embedding fails; the results are exactly one per neighbour pair, in neighbour order, with result m holding job `indices[m]` and score `1 - distances[m]` |
| `Recommend.Score` | career_agent.py:70 | score and distance sum to one, so distances in [0, 2] give scores in [-1, 1] |
| `Recommend.Assemble` | career_agent.py:67-72 | the result loop over `zip(distances, indices)` gives min(#distances, #indices) results, each holding a corpus job |
| `Recommend.AssembleAt` | career_agent.py:66-72 | result assembly yields min(#distances, #indices) results, result m being job `indices[m]` with score `1 - distances[m]` |
| `Recommend.AssembleCount` | career_agent.py:66-72 | a search that answers k pairs yields exactly k results |
| `Recommend.ScoreOrder` | career_agent.py:68-71 | a strictly smaller distance gives a strictly larger score and equal distances give equal scores, in both directions |
| `Recommend.DescendingScores` | career_agent.py:66-72 | neighbours in ascending distance give results in descending score |
| `Agent.CareerAgent.SummaryForPrompt` | career_agent.py:74-79 | the returned text is the newline join of one block per role, in input order |
| `Jobs.RoleBlock` | career_agent.py:78 | a role's block is non-empty, starts with `-` and ends with `)` |
| `Jobs.RoleBlocks` | career_agent.py:75-78 | one block per role, in input order; block i renders role i |
| `Jobs.RoleBlockNoTags` | career_agent.py:78 | an empty tag list renders as `(tags: )` |
| `Jobs.RoleBlockSingleLine` | career_agent.py:78 | a role without newlines in its title, description or tags renders as a block without newlines |
| `Jobs.Summary` | career_agent.py:79 | no roles give the empty string; one role gives exactly its block |
| `Jobs.SummaryConcat` | career_agent.py:79 | the summary of a + b is the summary of a, a newline, and the summary of b |
| `Jobs.SummaryEndsWithLastBlock` | career_agent.py:79 | a non-empty summary ends with the last role's block, so it ends with `)` and has no trailing newline |
| `Jobs.SummaryLines` | career_agent.py:75-79 | when no role contains a newline, splitting the summary at newlines gives back exactly the role blocks, one line per role, in order |
| `Strings.Join` | career_agent.py:78-79 | the join's length is the parts' total length plus one separator between each pair of neighbours; no parts give the empty string |
| `Strings.JoinConcat` | career_agent.py:79 | joining two non-empty lists is joining their joins with one separator |
| `Strings.SplitJoin` | career_agent.py:79 | splitting a join at its one-character separator gives back the parts, when no part contains the separator |

## Left out

- `get_embedding` (career_agent.py:7-32) runs the Ollama CLI in a subprocess and parses its JSON output. It is replaced by the `embed` parameter, which returns `Embedded(vector)` or `EmbedFailed(message)`. In the build, the outcome depends on the call number and the text; for the single query call, on the text. The model does not tell apart the individual error messages.
- `generate_plan` (career_agent.py:81-102) is a call to an external language model. Its prompt template only feeds that call.
- Reading `jobs.json` in `__init__` (career_agent.py:35-37) is file I/O. The constructor takes the corpus as a sequence of `Job` records, and JSON fields other than title, description and tags are ignored.
- The L2 normalisation with its `1e-10` epsilon (career_agent.py:53-54, 61) is float32 arithmetic with a square root, so the `normalized` field is not modelled. In `RecommendRoles` the search receives the raw query vector, or the zero fallback, and the division by the norm is taken to happen inside the search.
- `NearestNeighbors` fit and `kneighbors` (career_agent.py:55-56, 66) is a foreign library. The `search` parameter stands for it. It is assumed to return indices of corpus rows, which is the `IndicesIn` precondition of `RecommendRoles`. The errors of `kneighbors` are not modelled: a `k` outside 1 to the corpus size, or a query whose length differs from the matrix's. Of the input checks of `fit`, only the one that refuses a matrix with no columns is modelled (in `BuildIndex`); its refusal of non-finite values has no counterpart for `real`.
- RecommendRoles: takes `k` as a required argument; the default `k=3` of `recommend_roles` (career_agent.py:58) is not modelled, and the only caller (app.py:24) always passes `k`.
- Values are `real`, not float32. `float(sim)` is the identity here.
- The `print` warnings (career_agent.py:49, 63) are logging only.
- app.py is Streamlit UI (form, slider bounds 1 to 5, rendering) and is not part of this model.
