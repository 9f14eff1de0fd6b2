/** The driver loop: every chunk of every establishment file, in file
    order and then chunk order, goes through the chunk filter; the
    non-empty results are collected in `resultados` and concatenated. An
    error raised by the filter ends the run. */
module Aggregation {
  import opened Common
  import opened Seqs
  import opened ChunkFilter

  /** The output of each chunk, an error counting as no rows. */
  function Outputs(chunks: seq<Chunk>): (r: seq<seq<Record>>)
    ensures |r| == |chunks|
    ensures forall k | 0 <= k < |chunks| :: ChunkResult(chunks[k]).Ok? ==> r[k] == ChunkResult(chunks[k]).value
  {
    seq(|chunks|, k requires 0 <= k < |chunks| =>
      match ChunkResult(chunks[k]) case Ok(t) => t case Err(_) => [])
  }

  /** `resultados` after the given chunks: the non-empty results in
      order, or the first error. */
  function Collect(chunks: seq<Chunk>): Result<seq<seq<Record>>, Failure>
  {
    if chunks == [] then Ok([])
    else match Collect(chunks[..|chunks| - 1])
      case Err(e) => Err(e)
      case Ok(acc) =>
        match ChunkResult(chunks[|chunks| - 1])
        case Err(e) => Err(e)
        case Ok(t) => Ok(if t != [] then acc + [t] else acc)
  }

  /** The table after the driver loop: the concatenation of the collected
      results (no results give the empty table with the nine report
      columns). */
  function Aggregated(files: seq<seq<Chunk>>): Result<seq<Record>, Failure>
  {
    match Collect(Flatten(files))
    case Err(e) => Err(e)
    case Ok(rs) => Ok(Flatten(rs))
  }

  /** The collection fails exactly when some chunk fails, and then with the
      error of the first failing chunk; otherwise it holds the non-empty
      chunk outputs in chunk order. */
  lemma {:induction false} CollectSpec(chunks: seq<Chunk>)
    ensures Collect(chunks).Err? <==> exists k | 0 <= k < |chunks| :: ChunkResult(chunks[k]).Err?
    ensures Collect(chunks).Err? ==>
              exists k | 0 <= k < |chunks| ::
                && ChunkResult(chunks[k]) == Err(Collect(chunks).error)
                && forall l | 0 <= l < k :: ChunkResult(chunks[l]).Ok?
    ensures Collect(chunks).Ok? ==> Collect(chunks).value == Filter(Outputs(chunks), NonEmpty)
  {
    if chunks != [] {
      var n := |chunks| - 1;
      var init := chunks[..n];
      CollectSpec(init);
      assert chunks == init + [chunks[n]];
      CollectSnoc(init, chunks[n]);
      if Collect(chunks).Ok? {
        assert Outputs(chunks)[..n] == Outputs(init);
        FilterSnoc(Outputs(chunks), n, NonEmpty);
        assert Outputs(chunks)[..n + 1] == Outputs(chunks);
      }
    }
  }

  /** Without a failing chunk, the aggregated table is every chunk's
      output, concatenated in chunk order; leaving out the empty results
      changes nothing. */
  lemma AggregatedSpec(files: seq<seq<Chunk>>)
    ensures Aggregated(files).Err? <==> exists k | 0 <= k < |Flatten(files)| :: ChunkResult(Flatten(files)[k]).Err?
    ensures Aggregated(files).Ok? ==> Aggregated(files).value == Flatten(Outputs(Flatten(files)))
  {
    var chunks := Flatten(files);
    CollectSpec(chunks);
    if Collect(chunks).Ok? {
      assert Aggregated(files).value == Flatten(Collect(chunks).value);
      FlattenWithoutEmpty(Outputs(chunks));
    }
  }

  /** When no chunk has a surviving row, the aggregated table is empty. */
  lemma NothingSurvives(files: seq<seq<Chunk>>)
    requires forall c | c in Flatten(files) :: Survivors(c.rows) == []
    ensures Aggregated(files) == Ok([])
  {
    var chunks := Flatten(files);
    CollectSpec(chunks);
    assert forall k | 0 <= k < |chunks| :: ChunkResult(chunks[k]) == Ok([]) by {
      forall k | 0 <= k < |chunks| ensures ChunkResult(chunks[k]) == Ok([]) {
        assert chunks[k] in chunks;
      }
    }
    AllEmptyFiltered(Outputs(chunks));
  }

  lemma {:induction false} AllEmptyFiltered(ts: seq<seq<Record>>)
    requires forall k | 0 <= k < |ts| :: ts[k] == []
    ensures Filter(ts, NonEmpty) == []
  {
    if ts != [] {
      AllEmptyFiltered(ts[1..]);
    }
  }

  /** The driver: for each file, for each of its chunks, filter the chunk
      and append a non-empty result to `resultados`; then concatenate. */
  method Aggregate(files: seq<seq<Chunk>>) returns (res: Result<seq<Record>, Failure>)
    ensures res == Aggregated(files)
  {
    var resultados: seq<seq<Record>> := [];
    var i := 0;
    while i < |files|
      invariant 0 <= i <= |files|
      invariant Collect(Flatten(files[..i])) == Ok(resultados)
    {
      var file := files[i];
      ghost var before := Flatten(files[..i]);
      var j := 0;
      assert before + file[..0] == before;
      while j < |file|
        invariant 0 <= j <= |file|
        invariant Collect(before + file[..j]) == Ok(resultados)
      {
        AppendTakeSnoc(before, file, j);
        CollectSnoc(before + file[..j], file[j]);
        var processed := ProcessChunk(file[j]);
        if processed.Err? {
          AbortKeepsError(files, i, j, processed.error);
          return Err(processed.error);
        }
        if processed.value != [] {
          resultados := resultados + [processed.value];
        }
        j := j + 1;
      }
      FlattenTakeSnoc(files, i);
      assert file[..j] == file;
      i := i + 1;
    }
    assert files[..i] == files;
    res := Ok(Flatten(resultados));
  }

  /** One more chunk: its error, or its result appended when not empty. */
  lemma CollectSnoc(done: seq<Chunk>, c: Chunk)
    ensures Collect(done + [c]) ==
              match Collect(done)
              case Err(e) => Err(e)
              case Ok(acc) =>
                match ChunkResult(c)
                case Err(e) => Err(e)
                case Ok(t) => Ok(if t != [] then acc + [t] else acc)
  {
    assert (done + [c])[..|done|] == done;
  }

  /** An error in chunk `j` of file `i`, with every earlier chunk
      filtered, is the error of the whole run. */
  lemma AbortKeepsError(files: seq<seq<Chunk>>, i: nat, j: nat, e: Failure)
    requires i < |files| && j < |files[i]|
    requires Collect(Flatten(files[..i]) + files[i][..j + 1]) == Err(e)
    ensures Aggregated(files) == Err(e)
  {
    var prefix := Flatten(files[..i]) + files[i][..j + 1];
    FlattenAround(files, i);
    assert files[i] == files[i][..j + 1] + files[i][j + 1..];
    var rest := files[i][j + 1..] + Flatten(files[i + 1..]);
    assert Flatten(files) == prefix + rest;
    CollectErrSticks(prefix, rest);
  }

  /** Once the collection has failed, later chunks do not change the
      error. */
  lemma {:induction false} CollectErrSticks(done: seq<Chunk>, rest: seq<Chunk>)
    requires Collect(done).Err?
    ensures Collect(done + rest) == Collect(done)
    decreases |rest|
  {
    if rest != [] {
      var all := done + rest;
      CollectErrSticks(done, rest[..|rest| - 1]);
      assert all[..|all| - 1] == done + rest[..|rest| - 1];
    } else {
      assert done + rest == done;
    }
  }
}
