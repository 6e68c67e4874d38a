/** Question sampling for a level: `getByLevelId(levelId)` fetches the
    level's questions, shuffles a copy and keeps the first ten.

    The store's reply is a parameter, and so is the shuffle: `shuffled` is
    the copy after `sort(() => Math.random() - 0.5)`, which is some
    rearrangement of the fetched list (no claim is made about how likely each
    rearrangement is). */
module QuestionsService {
  import opened Records

  /** `Math.min(10, shuffled.length)`: at most ten questions per session. */
  const SampleLimit: nat := 10

  /** Answer of `fetchRecords('question_c', ...)`: a successful response with
      its `data` (possibly absent), an unsuccessful one, or an exception. */
  datatype FetchReply = Fetched(data: Option<seq<Question>>) | FetchFailed | FetchThrew

  /** `response.data || []` on success; failures reach no list at all. */
  function Received(reply: FetchReply): seq<Question>
  {
    if reply.Fetched? && reply.data.Some? then reply.data.value else []
  }

  /** `shuffled.slice(0, Math.min(10, shuffled.length))`: a prefix of a
      rearrangement of `questions`, ten long or all of them. */
  function Sample(questions: seq<Question>, shuffled: seq<Question>): (r: seq<Question>)
    requires multiset(shuffled) == multiset(questions)
    ensures |r| == Min(SampleLimit, |questions|)
    ensures |r| <= |shuffled| && r == shuffled[..|r|]
    ensures multiset(r) <= multiset(questions)
    ensures |questions| <= SampleLimit ==> multiset(r) == multiset(questions)
  {
    assert |shuffled| == |multiset(shuffled)| == |questions|;
    var k := Min(SampleLimit, |shuffled|);
    assert shuffled == shuffled[..k] + shuffled[k..];
    shuffled[..k]
  }

  /** `getByLevelId`: the sample of the fetched questions, or `[]` when the
      fetch failed or threw. */
  function GetByLevelId(reply: FetchReply, shuffled: seq<Question>): (r: seq<Question>)
    requires reply.Fetched? ==> multiset(shuffled) == multiset(Received(reply))
    ensures !reply.Fetched? ==> r == []
    ensures |r| == if reply.Fetched? then Min(SampleLimit, |Received(reply)|) else 0
    ensures reply.Fetched? ==> |r| <= |shuffled| && r == shuffled[..|r|]
    ensures multiset(r) <= multiset(Received(reply))
  {
    if reply.Fetched? then Sample(Received(reply), shuffled) else []
  }

  /** Every sampled question was fetched, no question is sampled more often
      than it was fetched, and a fetch without data gives no questions. */
  lemma SampleComesFromFetch(reply: FetchReply, shuffled: seq<Question>)
    requires reply.Fetched? ==> multiset(shuffled) == multiset(Received(reply))
    ensures var r := GetByLevelId(reply, shuffled);
      && |r| == Min(SampleLimit, |Received(reply)|)
      && (forall q :: q in r ==> q in Received(reply))
      && (forall q :: multiset(r)[q] <= multiset(Received(reply))[q])
      && (Received(reply) == [] ==> r == [])
  {
    var r := GetByLevelId(reply, shuffled);
    forall q | q in r
      ensures q in Received(reply)
    {
      assert q in multiset(r);
    }
  }

  /** The list holds no question twice. */
  predicate Distinct(s: seq<Question>)
  {
    forall i, j :: 0 <= i < j < |s| ==> s[i] != s[j]
  }

  lemma RepeatCounts(s: seq<Question>, i: nat, j: nat)
    requires i < j < |s| && s[i] == s[j]
    ensures multiset(s)[s[i]] >= 2
  {
    assert s == s[..j] + s[j..];
    assert s[i] == s[..j][i];
    assert s[j] == s[j..][0];
  }

  lemma DistinctCounts(s: seq<Question>)
    requires Distinct(s)
    ensures forall q :: multiset(s)[q] <= 1
  {
    forall q
      ensures multiset(s)[q] <= 1
    {
      if q in s {
        var i :| 0 <= i < |s| && s[i] == q;
        assert s == s[..i] + [q] + s[i + 1..];
        assert q !in s[..i] && q !in s[i + 1..] by {
          forall j | 0 <= j < |s| && j != i
            ensures s[j] != q
          {
          }
        }
      }
    }
  }

  /** Fetched questions that are all different give a sample of different
      questions: fifteen give exactly ten distinct ones. */
  lemma SampleOfDistinctIsDistinct(questions: seq<Question>, shuffled: seq<Question>)
    requires multiset(shuffled) == multiset(questions)
    requires Distinct(questions)
    ensures Distinct(Sample(questions, shuffled))
    ensures |questions| >= SampleLimit ==> |Sample(questions, shuffled)| == SampleLimit
  {
    var r := Sample(questions, shuffled);
    DistinctCounts(questions);
    forall i, j | 0 <= i < j < |r|
      ensures r[i] != r[j]
    {
      if r[i] == r[j] {
        RepeatCounts(r, i, j);
        assert false;
      }
    }
  }

  /** Ten or fewer fetched questions all come back, in some order. */
  lemma SmallFetchComesBackWhole(reply: FetchReply, shuffled: seq<Question>)
    requires reply.Fetched?
    requires multiset(shuffled) == multiset(Received(reply))
    requires |Received(reply)| <= SampleLimit
    ensures multiset(GetByLevelId(reply, shuffled)) == multiset(Received(reply))
  {
  }
}
