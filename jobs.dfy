/** Job records, the per-job index text and the prompt summary of the
    recommended roles. */
module Jobs {
  import opened Strings

  /** One record of the job corpus; fields other than these are ignored. */
  datatype Job = Job(title: string, description: string, tags: seq<string>)

  /** One recommended role: the job and its similarity score. */
  datatype Recommendation = Recommendation(job: Job, score: real)

  /** The text embedded for a job: its title, " -- ", its description. */
  function IndexText(j: Job): (t: string)
    ensures |t| == |j.title| + 4 + |j.description|
    ensures t[..|j.title|] == j.title
    ensures t[|j.title|..|j.title| + 4] == " -- "
    ensures t[|j.title| + 4..] == j.description
  {
    j.title + " -- " + j.description
  }

  /** The index texts of a corpus: one per job, in corpus order. */
  function IndexTexts(jobs: seq<Job>): (texts: seq<string>)
    ensures |texts| == |jobs|
    ensures forall i :: 0 <= i < |jobs| ==> texts[i] == IndexText(jobs[i])
  {
    if |jobs| == 0 then [] else [IndexText(jobs[0])] + IndexTexts(jobs[1..])
  }

  /** The summary block of one role. */
  function RoleBlock(j: Job): (b: string)
    ensures |b| > 0 && b[0] == '-' && b[|b| - 1] == ')'
  {
    "- " + j.title + ": " + j.description + " (tags: " + Join(", ", j.tags) + ")"
  }

  /** The summary blocks of the roles: one per role, in input order. */
  function RoleBlocks(roles: seq<Recommendation>): (blocks: seq<string>)
    ensures |blocks| == |roles|
    ensures forall i :: 0 <= i < |roles| ==> blocks[i] == RoleBlock(roles[i].job)
  {
    if |roles| == 0 then [] else [RoleBlock(roles[0].job)] + RoleBlocks(roles[1..])
  }

  /** The prompt summary: the role blocks joined by newlines. No roles give
      the empty string and a single role gives exactly its block. */
  function Summary(roles: seq<Recommendation>): (s: string)
    ensures |roles| == 0 ==> s == ""
    ensures |roles| == 1 ==> s == RoleBlock(roles[0].job)
  {
    Join("\n", RoleBlocks(roles))
  }

  /** The job has no newline in its title, description or tags. */
  predicate SingleLine(j: Job)
  {
    && '\n' !in j.title
    && '\n' !in j.description
    && forall i :: 0 <= i < |j.tags| ==> '\n' !in j.tags[i]
  }

  /** An empty tag list renders as "(tags: )". */
  lemma RoleBlockNoTags(j: Job)
    requires j.tags == []
    ensures RoleBlock(j) == "- " + j.title + ": " + j.description + " (tags: )"
  {
  }

  /** Summaries compose: the summary of a + b is that of a, a newline and
      that of b. */
  lemma SummaryConcat(a: seq<Recommendation>, b: seq<Recommendation>)
    requires |a| > 0 && |b| > 0
    ensures Summary(a + b) == Summary(a) + "\n" + Summary(b)
  {
    var ab, ba, bb := RoleBlocks(a + b), RoleBlocks(a), RoleBlocks(b);
    forall i | 0 <= i < |ab|
      ensures ab[i] == (ba + bb)[i]
    {
      if i < |a| {
        assert (a + b)[i] == a[i];
      } else {
        assert (a + b)[i] == b[i - |a|];
      }
    }
    assert ab == ba + bb;
    JoinConcat("\n", ba, bb);
  }

  /** A non-empty summary ends with the last role's block, hence with ')'
      and never with a newline. */
  lemma SummaryEndsWithLastBlock(roles: seq<Recommendation>)
    requires |roles| > 0
    ensures var s, b := Summary(roles), RoleBlock(roles[|roles| - 1].job);
            |b| <= |s| && s[|s| - |b|..] == b && s[|s| - 1] == ')'
  {
    var blocks := RoleBlocks(roles);
    JoinEndsWithLast("\n", blocks);
    var s, b := Summary(roles), blocks[|blocks| - 1];
    assert s[|s| - 1] == s[|s| - |b|..][|b| - 1];
  }

  /** A newline-free role renders as a newline-free block. */
  lemma RoleBlockSingleLine(j: Job)
    requires SingleLine(j)
    ensures '\n' !in RoleBlock(j)
  {
    JoinAvoids(", ", j.tags, '\n');
  }

  /** When no role contains a newline, the summary has exactly one line per
      role and line i is the block of role i. */
  lemma SummaryLines(roles: seq<Recommendation>)
    requires |roles| > 0
    requires forall i :: 0 <= i < |roles| ==> SingleLine(roles[i].job)
    ensures Split(Summary(roles), '\n') == RoleBlocks(roles)
  {
    var blocks := RoleBlocks(roles);
    forall i | 0 <= i < |blocks|
      ensures '\n' !in blocks[i]
    {
      RoleBlockSingleLine(roles[i].job);
    }
    SplitJoin(blocks, '\n');
  }
}
