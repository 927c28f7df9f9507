/**
  `JsonDataProcessingServiceImpl`: the bulk import. Each uploaded file is read
  into a cargo list and the list is saved cargo by cargo into a per-file
  tally; the tallies of the files whose task completed are summed into the
  batch result.

  The thread pool is replaced by running the per-file tasks one after another
  in submission order, which is also the order in which the source collects
  their futures. The repository's save is an abstract oracle that either
  stores a cargo or raises with a message.
 */
module JsonProcessing {
  import opened Wrappers
  import opened Entities
  import opened JsonReader

  /** DataProcessingResponseDto: counts of imported and rejected cargos. */
  datatype Tally = Tally(successfulImports: int, failedImports: int)

  const NoImports: Tally := Tally(0, 0)

  function Add(a: Tally, b: Tally): Tally {
    Tally(a.successfulImports + b.successfulImports, a.failedImports + b.failedImports)
  }

  function Id(t: Tally): Tally { t }

  /** The componentwise sum of `f` over `xs`, accumulated left to right. */
  function Total<T>(xs: seq<T>, f: T -> Tally): Tally
    decreases |xs|
  {
    if |xs| == 0 then NoImports else Add(Total(xs[..|xs| - 1], f), f(xs[|xs| - 1]))
  }

  lemma {:induction false} TotalAppend<T>(a: seq<T>, b: seq<T>, f: T -> Tally)
    ensures Total(a + b, f) == Add(Total(a, f), Total(b, f))
    decreases |b|
  {
    if |b| == 0 {
      assert a + b == a;
    } else {
      var b' := b[..|b| - 1];
      assert (a + b)[..|a + b| - 1] == a + b';
      TotalAppend(a, b', f);
    }
  }

  lemma TotalSingleton<T>(x: T, f: T -> Tally)
    ensures Total([x], f) == f(x)
  {
    assert [x][..0] == [];
  }

  lemma TotalCons<T>(x: T, xs: seq<T>, f: T -> Tally)
    ensures Total([x] + xs, f) == Add(f(x), Total(xs, f))
  {
    TotalAppend([x], xs, f);
    TotalSingleton(x, f);
  }

  /** Taking one term out of the sum. */
  lemma {:induction false} TotalRemove<T>(b: seq<T>, k: nat, f: T -> Tally)
    requires k < |b|
    ensures Total(b, f) == Add(Total(b[..k] + b[k + 1..], f), f(b[k]))
  {
    var pre, x, post := b[..k], b[k], b[k + 1..];
    SplitAt(b, k);
    var t1, t2, t3 := Total(pre, f), f(x), Total(post, f);
    calc {
      Total(b, f);
      { TotalAppend(pre + [x], post, f); }
      Add(Total(pre + [x], f), t3);
      { TotalAppend(pre, [x], f); TotalSingleton(x, f); }
      Add(Add(t1, t2), t3);
      Add(Add(t1, t3), t2);
      { TotalAppend(pre, post, f); }
      Add(Total(pre + post, f), t2);
    }
  }

  lemma SplitAt<T>(b: seq<T>, k: nat)
    requires k < |b|
    ensures b == (b[..k] + [b[k]]) + b[k + 1..]
  {
  }

  /** The sum does not depend on the order of its terms. */
  lemma {:induction false} TotalPermutation<T>(a: seq<T>, b: seq<T>, f: T -> Tally)
    requires multiset(a) == multiset(b)
    ensures Total(a, f) == Total(b, f)
    decreases |a|
  {
    if |a| == 0 {
      assert |b| == |multiset(b)| == 0;
    } else {
      var x := a[|a| - 1];
      var a' := a[..|a| - 1];
      assert a == a' + [x];
      assert x in multiset(b);
      var k :| 0 <= k < |b| && b[k] == x;
      var b' := b[..k] + b[k + 1..];
      assert b == b[..k] + [x] + b[k + 1..];
      assert multiset(b') == multiset(b) - multiset{x};
      assert multiset(a') == multiset(a) - multiset{x};
      TotalPermutation(a', b', f);
      TotalRemove(b, k, f);
    }
  }

  /**
    `calculateTotalImports`: one pass over the per-file tallies adding both
    counters; the result is their componentwise sum.
   */
  method CalculateTotalImports(tallies: seq<Tally>) returns (total: Tally)
    ensures total == Total(tallies, Id)
  {
    var successful := 0;
    var failed := 0;
    var i := 0;
    while i < |tallies|
      invariant i <= |tallies|
      invariant Tally(successful, failed) == Total(tallies[..i], Id)
    {
      assert tallies[..i + 1][..i] == tallies[..i];
      successful := successful + tallies[i].successfulImports;
      failed := failed + tallies[i].failedImports;
      i := i + 1;
    }
    assert tallies[..i] == tallies;
    total := Tally(successful, failed);
  }

  /** The batch totals are unchanged by any reordering of the per-file tallies. */
  lemma TotalsIndependentOfOrder(a: seq<Tally>, b: seq<Tally>)
    requires multiset(a) == multiset(b)
    ensures Total(a, Id) == Total(b, Id)
  {
    TotalPermutation(a, b, Id);
  }

  /** The repository's save: None when the cargo is stored, Some(message) when it raises. */
  type SaveOracle = Cargo -> Option<string>

  const SaveErrorPrefix: string := "Error saving cargo data: "

  /** What one file's task leaves behind: the cargos it stored, in order, and its tally or the exception that ended it. */
  datatype FileRun = FileRun(saved: seq<Cargo>, result: Result<Tally, string>)

  /** The cargos that have a vehicle, in order. */
  function WithVehicle(cargos: seq<Cargo>): (r: seq<Cargo>)
    ensures |r| <= |cargos|
    ensures forall c :: c in r <==> c in cargos && c.vehicle.Some?
  {
    if |cargos| == 0 then []
    else (if cargos[0].vehicle.Some? then [cargos[0]] else []) + WithVehicle(cargos[1..])
  }

  /** Every cargo with a vehicle is kept as often as it occurs, so each copy is saved and counted. */
  lemma {:induction false} WithVehicleCounts(cargos: seq<Cargo>)
    ensures forall c :: multiset(WithVehicle(cargos))[c] == if c.vehicle.Some? then multiset(cargos)[c] else 0
    decreases |cargos|
  {
    if |cargos| != 0 {
      WithVehicleCounts(cargos[1..]);
      assert cargos == [cargos[0]] + cargos[1..];
    }
  }

  /** The filter keeps order: filtering two lists put together is filtering each and putting the results together. */
  lemma {:induction false} WithVehicleAppend(a: seq<Cargo>, b: seq<Cargo>)
    ensures WithVehicle(a + b) == WithVehicle(a) + WithVehicle(b)
    decreases |a|
  {
    if |a| == 0 {
      assert a + b == b;
    } else {
      assert (a + b)[0] == a[0];
      assert (a + b)[1..] == a[1..] + b;
      WithVehicleAppend(a[1..], b);
    }
  }

  /** Position of the first cargo whose save raises, or |cargos| when no save raises. */
  function FirstRejected(cargos: seq<Cargo>, rejects: SaveOracle): (k: nat)
    ensures k <= |cargos|
    ensures forall j :: 0 <= j < k && cargos[j].vehicle.Some? ==> rejects(cargos[j]).None?
    ensures k < |cargos| ==> cargos[k].vehicle.Some? && rejects(cargos[k]).Some?
  {
    if |cargos| == 0 then 0
    else if cargos[0].vehicle.Some? && rejects(cargos[0]).Some? then 0
    else 1 + FirstRejected(cargos[1..], rejects)
  }

  function CountFailure(r: Result<Tally, string>): Result<Tally, string> {
    match r
    case Success(t) => Success(Tally(t.successfulImports, t.failedImports + 1))
    case Failure(e) => Failure(e)
  }

  function CountSuccess(r: Result<Tally, string>): Result<Tally, string> {
    match r
    case Success(t) => Success(Tally(t.successfulImports + 1, t.failedImports))
    case Failure(e) => Failure(e)
  }

  /**
    `processCargoList`: a cargo with a vehicle is saved and counted as
    imported, one without is skipped and counted as failed; the first save
    that raises ends the file. The cargos saved before it stay stored, later
    ones are never saved, and no tally is returned.
   */
  function ProcessCargoList(cargos: seq<Cargo>, rejects: SaveOracle): (run: FileRun)
    ensures run.saved == WithVehicle(cargos[..FirstRejected(cargos, rejects)])
    ensures run.result.Success? <==> FirstRejected(cargos, rejects) == |cargos|
    ensures run.result.Success? ==>
      run.result.value == Tally(|WithVehicle(cargos)|, |cargos| - |WithVehicle(cargos)|)
    ensures run.result.Failure? ==>
      run.result.error == SaveErrorPrefix + rejects(cargos[FirstRejected(cargos, rejects)]).value
    decreases |cargos|
  {
    if |cargos| == 0 then FileRun([], Success(NoImports))
    else
      var c := cargos[0];
      assert cargos == [c] + cargos[1..];
      assert forall k :: 0 <= k < |cargos| ==> cargos[..k + 1] == [c] + cargos[1..][..k];
      if c.vehicle.None? then
        var rest := ProcessCargoList(cargos[1..], rejects);
        FileRun(rest.saved, CountFailure(rest.result))
      else match rejects(c)
        case Some(message) =>
          assert cargos[..0] == [];
          FileRun([], Failure(SaveErrorPrefix + message))
        case None =>
          var rest := ProcessCargoList(cargos[1..], rejects);
          FileRun([c] + rest.saved, CountSuccess(rest.result))
  }

  /** Every processed cargo is counted exactly once when the file completes. */
  lemma FileConservation(cargos: seq<Cargo>, rejects: SaveOracle)
    ensures var run := ProcessCargoList(cargos, rejects);
      run.result.Success? ==>
        && run.result.value.successfulImports + run.result.value.failedImports == |cargos|
        && run.result.value.successfulImports == |run.saved|
  {
    assert cargos[..|cargos|] == cargos;
  }

  /** One file's task: read the file, then process its cargo list. */
  function RunFile(file: JsonFile, decode: Decoder, rejects: SaveOracle): (run: FileRun)
    ensures run.result.Success? ==>
      && Scan(file.tokens, 0, decode).Some?
      && run.result.value.successfulImports + run.result.value.failedImports
         == |Scan(file.tokens, 0, decode).value|
      && run.result.value.successfulImports == |run.saved|
    ensures Scan(file.tokens, 0, decode).None? ==>
      run.saved == [] && run.result == Failure(InvalidFileMessage(file.name))
  {
    match Scan(file.tokens, 0, decode)
    case None => FileRun([], Failure(InvalidFileMessage(file.name)))
    case Some(cargos) =>
      FileConservation(cargos, rejects);
      ProcessCargoList(cargos, rejects)
  }

  /** One task per file, in submission order; a task sees only its own file. */
  function ProcessFiles(files: seq<JsonFile>, decode: Decoder, rejects: SaveOracle): (runs: seq<FileRun>)
    ensures |runs| == |files|
    ensures forall k :: 0 <= k < |files| ==> runs[k] == RunFile(files[k], decode, rejects)
  {
    if |files| == 0 then []
    else [RunFile(files[0], decode, rejects)] + ProcessFiles(files[1..], decode, rejects)
  }

  /**
    The loop over the futures: the tally of every completed task, in
    submission order; a task that raised is logged and dropped.
   */
  function Gather(runs: seq<FileRun>): (tallies: seq<Tally>)
    ensures |tallies| <= |runs|
    ensures forall t :: t in tallies ==> exists k :: 0 <= k < |runs| && runs[k].result == Success(t)
  {
    if |runs| == 0 then []
    else
      var rest := Gather(runs[1..]);
      assert forall k :: 0 <= k < |runs| - 1 ==> runs[1..][k] == runs[k + 1];
      match runs[0].result
      case Success(t) => [t] + rest
      case Failure(_) => rest
  }

  lemma {:induction false} GatherAppend(a: seq<FileRun>, b: seq<FileRun>)
    ensures Gather(a + b) == Gather(a) + Gather(b)
    decreases |a|
  {
    if |a| == 0 {
      assert a + b == b;
    } else {
      assert (a + b)[1..] == a[1..] + b;
      GatherAppend(a[1..], b);
    }
  }

  lemma {:induction false} ProcessFilesAppend(a: seq<JsonFile>, b: seq<JsonFile>, decode: Decoder, rejects: SaveOracle)
    ensures ProcessFiles(a + b, decode, rejects) == ProcessFiles(a, decode, rejects) + ProcessFiles(b, decode, rejects)
  {
    var left := ProcessFiles(a + b, decode, rejects);
    var right := ProcessFiles(a, decode, rejects) + ProcessFiles(b, decode, rejects);
    assert |left| == |right|;
    forall k | 0 <= k < |left| ensures left[k] == right[k] {
      if k < |a| {
        assert (a + b)[k] == a[k];
      } else {
        assert (a + b)[k] == b[k - |a|];
      }
    }
  }

  /**
    A file whose task fails, by a parse error or a save error, contributes
    nothing to the collected tallies and leaves every other file's tally as
    it is.
   */
  lemma FailedFileContributesNothing(
    before: seq<JsonFile>, failed: JsonFile, after: seq<JsonFile>, decode: Decoder, rejects: SaveOracle)
    requires RunFile(failed, decode, rejects).result.Failure?
    ensures Gather(ProcessFiles(before + [failed] + after, decode, rejects))
         == Gather(ProcessFiles(before + after, decode, rejects))
  {
    var pb := ProcessFiles(before, decode, rejects);
    var pf := ProcessFiles([failed], decode, rejects);
    var pa := ProcessFiles(after, decode, rejects);
    assert Gather(pf) == [] by {
      assert pf == [RunFile(failed, decode, rejects)];
    }
    calc {
      Gather(ProcessFiles(before + [failed] + after, decode, rejects));
      { ProcessFilesAppend(before + [failed], after, decode, rejects);
        ProcessFilesAppend(before, [failed], decode, rejects); }
      Gather((pb + pf) + pa);
      { GatherAppend(pb + pf, pa); GatherAppend(pb, pf); }
      Gather(pb) + Gather(pa);
      { GatherAppend(pb, pa); ProcessFilesAppend(before, after, decode, rejects); }
      Gather(ProcessFiles(before + after, decode, rejects));
    }
  }

  /** What a file adds to the batch totals: its tally if its task completed, nothing otherwise. */
  function Contribution(run: FileRun): Tally {
    match run.result
    case Success(t) => t
    case Failure(_) => NoImports
  }

  lemma {:induction false} GatherFirst(runs: seq<FileRun>)
    requires |runs| > 0
    ensures Total(Gather(runs), Id) == Add(Contribution(runs[0]), Total(Gather(runs[1..]), Id))
  {
    if runs[0].result.Success? {
      GatherFirstSuccess(runs);
    } else {
      assert Gather(runs) == Gather(runs[1..]);
      var x := Total(Gather(runs[1..]), Id);
      assert Add(Contribution(runs[0]), x) == Add(NoImports, x) == x;
    }
  }

  lemma GatherFirstSuccess(runs: seq<FileRun>)
    requires |runs| > 0 && runs[0].result.Success?
    ensures Total(Gather(runs), Id) == Add(runs[0].result.value, Total(Gather(runs[1..]), Id))
  {
    var t := runs[0].result.value;
    var rest := Gather(runs[1..]);
    assert Gather(runs) == [t] + rest;
    TotalCons(t, rest, Id);
  }

  lemma {:induction false} GatherTotal(runs: seq<FileRun>)
    ensures Total(Gather(runs), Id) == Total(runs, Contribution)
    decreases |runs|
  {
    if |runs| != 0 {
      GatherTotal(runs[1..]);
      GatherFirst(runs);
      assert runs == [runs[0]] + runs[1..];
      TotalAppend([runs[0]], runs[1..], Contribution);
      TotalSingleton(runs[0], Contribution);
    }
  }

  /** What one file adds to the totals when its task runs. */
  function FileTally(decode: Decoder, rejects: SaveOracle): JsonFile -> Tally {
    file => Contribution(RunFile(file, decode, rejects))
  }

  lemma {:induction false} ProcessFilesTotal(files: seq<JsonFile>, decode: Decoder, rejects: SaveOracle)
    ensures Total(ProcessFiles(files, decode, rejects), Contribution) == Total(files, FileTally(decode, rejects))
    decreases |files|
  {
    if |files| != 0 {
      var n := |files|;
      var runs := ProcessFiles(files, decode, rejects);
      ProcessFilesTotal(files[..n - 1], decode, rejects);
      assert runs[..n - 1] == ProcessFiles(files[..n - 1], decode, rejects);
    }
  }

  /**
    The order in which files are submitted (or complete) does not change the
    batch totals: any reordering of the same files gives the same sums.
   */
  lemma {:induction false} FileOrderIrrelevant(files1: seq<JsonFile>, files2: seq<JsonFile>, decode: Decoder, rejects: SaveOracle)
    requires multiset(files1) == multiset(files2)
    ensures Total(Gather(ProcessFiles(files1, decode, rejects)), Id)
         == Total(Gather(ProcessFiles(files2, decode, rejects)), Id)
  {
    GatherTotal(ProcessFiles(files1, decode, rejects));
    GatherTotal(ProcessFiles(files2, decode, rejects));
    ProcessFilesTotal(files1, decode, rejects);
    ProcessFilesTotal(files2, decode, rejects);
    TotalPermutation(files1, files2, FileTally(decode, rejects));
  }

  /** Records read from the files whose task completed. */
  function CompletedRecords(files: seq<JsonFile>, decode: Decoder, rejects: SaveOracle): nat
    decreases |files|
  {
    if |files| == 0 then 0
    else
      var here :=
        if RunFile(files[0], decode, rejects).result.Success? then |Scan(files[0].tokens, 0, decode).value| else 0;
      here + CompletedRecords(files[1..], decode, rejects)
  }

  /** Cargos stored by the files whose task completed. */
  function CompletedSaves(runs: seq<FileRun>): nat
    decreases |runs|
  {
    if |runs| == 0 then 0
    else (if runs[0].result.Success? then |runs[0].saved| else 0) + CompletedSaves(runs[1..])
  }

  /** Everything the batch stored, including cargos saved by a file that later failed. */
  function StoredBy(runs: seq<FileRun>): seq<Cargo>
    decreases |runs|
  {
    if |runs| == 0 then [] else runs[0].saved + StoredBy(runs[1..])
  }

  lemma {:induction false} CompletedSavesBound(runs: seq<FileRun>)
    ensures CompletedSaves(runs) <= |StoredBy(runs)|
    decreases |runs|
  {
    if |runs| != 0 {
      CompletedSavesBound(runs[1..]);
    }
  }

  /** What one file adds: all its records and its stored cargos when its task completes, nothing otherwise. */
  lemma ContributionOfFile(file: JsonFile, decode: Decoder, rejects: SaveOracle)
    ensures var run := RunFile(file, decode, rejects);
      && Contribution(run).successfulImports + Contribution(run).failedImports
         == (if run.result.Success? then |Scan(file.tokens, 0, decode).value| else 0)
      && Contribution(run).successfulImports == (if run.result.Success? then |run.saved| else 0)
  {
  }

  /**
    Batch conservation: the summed tallies count every record of every
    completed file exactly once, and the imported ones are exactly the
    cargos those files stored.
   */
  lemma {:induction false} BatchConservation(files: seq<JsonFile>, decode: Decoder, rejects: SaveOracle)
    ensures var runs := ProcessFiles(files, decode, rejects);
      var total := Total(Gather(runs), Id);
      && total.successfulImports + total.failedImports == CompletedRecords(files, decode, rejects)
      && total.successfulImports == CompletedSaves(runs)
      && total.successfulImports <= |StoredBy(runs)|
    decreases |files|
  {
    var runs := ProcessFiles(files, decode, rejects);
    GatherTotal(runs);
    CompletedSavesBound(runs);
    if |files| != 0 {
      var tail := ProcessFiles(files[1..], decode, rejects);
      BatchConservation(files[1..], decode, rejects);
      assert runs[1..] == tail;
      GatherTotal(tail);
      assert runs == [runs[0]] + tail;
      TotalCons(runs[0], tail, Contribution);
      ContributionOfFile(files[0], decode, rejects);
    }
  }

  /**
    The value `uploadFromJson` returns. It starts as {0, 0}; if processing
    raises, that default is returned; otherwise the totals are assigned
    before the report is written, so a failed report write still returns them.
   */
  function UploadResult(processed: Result<seq<Tally>, string>, report: Outcome<string>): (total: Tally)
    ensures processed.Failure? ==> total == NoImports
    ensures processed.Success? ==> total == Total(processed.value, Id)
  {
    match processed
    case Failure(_) => NoImports
    case Success(tallies) =>
      var total := Total(tallies, Id);
      match report
      case Pass => total
      case Fail(_) => total
  }

  /** Only the totals matter to the caller: a failed report write changes nothing. */
  lemma ReportFailureKeepsTotals(tallies: seq<Tally>, e: string)
    ensures UploadResult(Success(tallies), Fail(e)) == UploadResult(Success(tallies), Pass)
    ensures UploadResult(Failure(e), Pass) == NoImports
  {
  }

  /** The state of the store and the returned totals after one upload. */
  datatype Upload = Upload(stored: seq<Cargo>, total: Tally)

  /** `uploadFromJson` over the whole batch; the sequential file runs never raise as a whole. */
  function UploadFromJson(files: seq<JsonFile>, decode: Decoder, rejects: SaveOracle, report: Outcome<string>): (u: Upload)
    ensures u.total.successfulImports <= |u.stored|
    ensures u.total.successfulImports + u.total.failedImports == CompletedRecords(files, decode, rejects)
    ensures u.total == Total(Gather(ProcessFiles(files, decode, rejects)), Id)
    ensures u.total.successfulImports == CompletedSaves(ProcessFiles(files, decode, rejects))
  {
    var runs := ProcessFiles(files, decode, rejects);
    BatchConservation(files, decode, rejects);
    Upload(StoredBy(runs), UploadResult(Success(Gather(runs)), report))
  }

  /**
    Two files, one with ten cargos that have a vehicle and two that do not,
    the other malformed: the batch reports ten imports and two failures.
   */
  lemma TwoFileScenario(good: JsonFile, bad: JsonFile, decode: Decoder, rejects: SaveOracle)
    requires Scan(good.tokens, 0, decode).Some?
    requires var cargos := Scan(good.tokens, 0, decode).value;
      |cargos| == 12 && |WithVehicle(cargos)| == 10 && forall c :: c in cargos ==> rejects(c).None?
    requires Scan(bad.tokens, 0, decode).None?
    ensures UploadFromJson([good, bad], decode, rejects, Pass).total == Tally(10, 2)
  {
    var cargos := Scan(good.tokens, 0, decode).value;
    assert FirstRejected(cargos, rejects) == |cargos|;
    var first := RunFile(good, decode, rejects);
    assert first == ProcessCargoList(cargos, rejects);
    assert first.result == Success(Tally(10, 2));
    assert RunFile(bad, decode, rejects).result.Failure?;
    var runs := ProcessFiles([good, bad], decode, rejects);
    assert runs == [first, RunFile(bad, decode, rejects)];
    assert runs[1..][1..] == [];
    assert Gather(runs) == [Tally(10, 2)];
    TotalSingleton(Tally(10, 2), Id);
  }
}
