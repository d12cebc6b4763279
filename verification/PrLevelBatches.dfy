/** Chunked analysis of PR-level rules: batches of concurrent chunks with retries do what one sequential
    pass does. */
module PrLevelBatches {
  import opened Text

  datatype BatchConfig = BatchConfig(maxConcurrentChunks: nat, batchDelay: nat, retryAttempts: nat, retryDelay: nat)

  const DEFAULT := BatchConfig(10, 2000, 3, 1000)

  method DetermineBatchConfig(totalChunks: nat) returns (config: BatchConfig)
    ensures totalChunks <= 10 ==> config == BatchConfig(totalChunks, 0, 3, 1000)
    ensures 10 < totalChunks <= 50 ==> config == BatchConfig(7, 2000, 3, 1000)
    ensures totalChunks > 50 ==> config == BatchConfig(5, 3000, 3, 1000)
    ensures totalChunks > 0 ==> 1 <= config.maxConcurrentChunks <= 10
    ensures config.batchDelay == 0 <==> totalChunks <= config.maxConcurrentChunks
    ensures config.retryAttempts == 3 && config.retryDelay == 1000
  {
    config := DEFAULT;
    if totalChunks <= 10 {
      config := config.(maxConcurrentChunks := totalChunks, batchDelay := 0);
    } else if totalChunks <= 50 {
      config := config.(maxConcurrentChunks := 7, batchDelay := 2000);
    } else {
      config := config.(maxConcurrentChunks := 5, batchDelay := 3000);
    }
  }

  /** The analyzer: what attempt `attempt` on a chunk gives, `None` where it throws. */
  type Analyzer<!R> = (nat, nat) -> Option<seq<R>>

  /** The result of the first attempt that succeeds. */
  ghost predicate FirstSuccess<R>(analyze: Analyzer<R>, chunk: nat, attempts: nat, result: Option<seq<R>>) {
    if result.Some? then
      exists k | 1 <= k <= attempts ::
        analyze(chunk, k) == result && forall j | 1 <= j < k :: analyze(chunk, j).None?
    else forall k | 1 <= k <= attempts :: analyze(chunk, k).None?
  }

  function Attempt<R>(analyze: Analyzer<R>, chunk: nat, attempt: nat, attempts: nat): Option<seq<R>>
    decreases attempts + 1 - attempt
  {
    if attempt > attempts then None
    else if analyze(chunk, attempt).Some? then analyze(chunk, attempt)
    else Attempt(analyze, chunk, attempt + 1, attempts)
  }

  /** The retries give the result of the first attempt that succeeds, none only if every attempt fails. */
  lemma {:induction false} AttemptIsFirst<R>(analyze: Analyzer<R>, chunk: nat, attempt: nat, attempts: nat)
    requires 1 <= attempt && forall j | 1 <= j < attempt :: analyze(chunk, j).None?
    ensures FirstSuccess(analyze, chunk, attempts, Attempt(analyze, chunk, attempt, attempts))
    decreases attempts + 1 - attempt
  {
    if attempt <= attempts && analyze(chunk, attempt).None? {
      AttemptIsFirst(analyze, chunk, attempt + 1, attempts);
    }
  }

  /** What a chunk contributes. */
  function Contribution<R>(analyze: Analyzer<R>, chunk: nat, attempts: nat): seq<R> {
    var r := Attempt(analyze, chunk, 1, attempts);
    if r.Some? then r.value else []
  }

  /** `waits` are the delays between the attempts. */
  method ProcessChunkWithRetry<R>(analyze: Analyzer<R>, chunk: nat, config: BatchConfig)
    returns (result: Option<seq<R>>, waits: seq<nat>)
    ensures result == Attempt(analyze, chunk, 1, config.retryAttempts)
    ensures FirstSuccess(analyze, chunk, config.retryAttempts, result)
    ensures |waits| < config.retryAttempts || waits == []
    ensures forall w | w in waits :: w <= 10000
  {
    waits := [];
    for attempt := 1 to config.retryAttempts + 1
      invariant |waits| == attempt - 1 && (attempt == 1 || attempt <= config.retryAttempts)
      invariant forall w | w in waits :: w <= 10000
      invariant forall j | 1 <= j < attempt :: analyze(chunk, j).None?
      invariant Attempt(analyze, chunk, 1, config.retryAttempts)
             == Attempt(analyze, chunk, attempt, config.retryAttempts)
    {
      result := analyze(chunk, attempt);
      if result.Some? {
        return;
      }
      if attempt < config.retryAttempts {
        var linear := config.retryDelay * attempt;
        waits := waits + [if linear < 10000 then linear else 10000];
      } else {
        return None, waits;
      }
    }
    return None, waits;
  }

  /** One pass over the chunks `from`, `from + 1`, ... */
  function Sequential<R>(analyze: Analyzer<R>, first: nat, total: nat, attempts: nat): seq<R>
    requires first <= total
    decreases total - first
  {
    if first == total then []
    else Contribution(analyze, first, attempts) + Sequential(analyze, first + 1, total, attempts)
  }

  lemma {:induction false} SequentialSplit<R>(analyze: Analyzer<R>, first: nat, middle: nat, total: nat, attempts: nat)
    requires first <= middle <= total
    ensures Sequential(analyze, first, total, attempts)
         == Sequential(analyze, first, middle, attempts) + Sequential(analyze, middle, total, attempts)
    decreases middle - first
  {
    hide Contribution;
    if first < middle {
      SequentialSplit(analyze, first + 1, middle, total, attempts);
    }
  }

  function Indices(count: nat): (indices: set<nat>)
    ensures forall k: nat :: k in indices <==> k < count
  {
    if count == 0 then {} else Indices(count - 1) + {count - 1}
  }

  /** The chunks of a batch finish in any order (`finished`); each result goes to the place of its chunk. */
  method ProcessBatchInParallel<R>(analyze: Analyzer<R>, offset: nat, count: nat, config: BatchConfig)
    returns (results: seq<Option<seq<R>>>, finished: seq<nat>)
    ensures |results| == count
    ensures forall k | 0 <= k < count :: results[k] == Attempt(analyze, offset + k, 1, config.retryAttempts)
    ensures multiset(finished) == multiset(Indices(count))
  {
    hide Attempt;
    results, finished := seq(count, _ => None), [];
    var running := Indices(count);
    while running != {}
      invariant |results| == count && running <= Indices(count)
      invariant multiset(finished) + multiset(running) == multiset(Indices(count))
      invariant forall k: nat | k < count && k !in running ::
                  results[k] == Attempt(analyze, offset + k, 1, config.retryAttempts)
      decreases |running|
    {
      var k :| k in running;
      var result, _ := ProcessChunkWithRetry(analyze, offset + k, config);
      results, running, finished := results[k := result], running - {k}, finished + [k];
    }
  }

  /** `visited` are the chunks analyzed, in the order in which their results are taken. Whatever the
      concurrency, every chunk is visited once and the result is that of a sequential pass. */
  method ProcessChunksInBatches<R>(analyze: Analyzer<R>, totalChunks: nat, config: BatchConfig)
    returns (violated: seq<R>, visited: seq<nat>)
    requires totalChunks > 0 ==> config.maxConcurrentChunks >= 1
    ensures violated == Sequential(analyze, 0, totalChunks, config.retryAttempts)
    ensures visited == seq(totalChunks, i => i)
  {
    hide Contribution, Sequential, Attempt;
    violated, visited := [], [];
    var i := 0;
    SequentialNone(analyze, 0, config.retryAttempts);
    while i < totalChunks
      invariant i <= totalChunks
      invariant violated == Sequential(analyze, 0, i, config.retryAttempts)
      invariant visited == seq(i, k => k)
      decreases totalChunks - i
    {
      var end := if i + config.maxConcurrentChunks < totalChunks then i + config.maxConcurrentChunks else totalChunks;
      var results, _ := ProcessBatchInParallel(analyze, i, end - i, config);
      SequentialSplit(analyze, 0, i, i, config.retryAttempts);
      for k := 0 to end - i
        invariant violated == Sequential(analyze, 0, i + k, config.retryAttempts)
        invariant visited == seq(i + k, j => j)
      {
        SequentialSplit(analyze, 0, i + k, i + k + 1, config.retryAttempts);
        SequentialOne(analyze, i + k, config.retryAttempts);
        ContributionOf(analyze, i + k, config.retryAttempts);
        if results[k].Some? {
          violated := violated + results[k].value;
        }
        visited := visited + [i + k];
      }
      i := end;
    }
  }

  lemma SequentialNone<R>(analyze: Analyzer<R>, i: nat, attempts: nat)
    ensures Sequential(analyze, i, i, attempts) == []
  {
  }

  lemma SequentialOne<R>(analyze: Analyzer<R>, i: nat, attempts: nat)
    ensures Sequential(analyze, i, i + 1, attempts) == Contribution(analyze, i, attempts)
  {
    hide Contribution;
    assert Sequential(analyze, i + 1, i + 1, attempts) == [];
  }

  lemma ContributionOf<R>(analyze: Analyzer<R>, chunk: nat, attempts: nat)
    ensures var r := Attempt(analyze, chunk, 1, attempts);
            Contribution(analyze, chunk, attempts) == if r.Some? then r.value else []
  {
    hide Attempt;
  }

  /** The whole analysis of a pull request with any number of chunks. */
  method ProcessAll<R>(analyze: Analyzer<R>, totalChunks: nat) returns (violated: seq<R>)
    ensures violated == Sequential(analyze, 0, totalChunks, 3)
  {
    hide Sequential;
    var config := DetermineBatchConfig(totalChunks);
    var visited;
    violated, visited := ProcessChunksInBatches(analyze, totalChunks, config);
  }
}
