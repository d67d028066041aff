/** The per-key retrying fetcher of internal/download/worker.go and the drain
    loop that feeds it. `FetchKey` is the reference definition of one call of
    downloadFile, as a pure function of the filesystem's and the downloader's
    answers; the lemmas after it state what that run promises; class `Worker`
    holds the two methods, proved to change the state exactly as `FetchKey`
    says. */
module Download {
  import opened Files
  import opened Sync

  /** The request a worker makes for one object. */
  datatype GetObjectInput = GetObjectInput(bucket: string, key: string)

  /** What one download attempt does: the positioned writes it makes into the
      destination file, and whether it reports success. */
  datatype Attempt = Attempt(writes: seq<Write>, ok: bool)

  /** The S3 transfer manager as an oracle: the n-th call with a given request
      behaves as `respond` says. Every request is recorded. */
  class Downloader {
    const respond: (GetObjectInput, nat) -> Attempt
    var requests: seq<GetObjectInput>

    constructor (respond: (GetObjectInput, nat) -> Attempt)
      ensures this.respond == respond && requests == []
    {
      this.respond := respond;
      requests := [];
    }

    /** Download into the open file at `path` through its WriterAt. */
    method Download(fs: FileSystem, path: string, input: GetObjectInput) returns (ok: bool)
      requires path in fs.open && path in fs.files
      modifies this, fs
      ensures requests == old(requests) + [input]
      ensures var a := respond(input, |old(requests)|);
        && ok == a.ok
        && fs.files == old(fs.files)[path := ApplyWrites(old(fs.files)[path], a.writes)]
      ensures fs.dirs == old(fs.dirs) && fs.open == old(fs.open)
      ensures fs.fallibleCalls == old(fs.fallibleCalls)
    {
      var a := respond(input, |requests|);
      requests := requests + [input];
      var i := 0;
      while i < |a.writes|
        invariant 0 <= i <= |a.writes|
        invariant requests == old(requests) + [input]
        invariant fs.files == old(fs.files)[path := ApplyWrites(old(fs.files)[path], a.writes[..i])]
        invariant fs.dirs == old(fs.dirs) && fs.open == old(fs.open)
        invariant fs.fallibleCalls == old(fs.fallibleCalls)
      {
        assert a.writes[..i + 1][..i] == a.writes[..i];
        fs.WriteTo(path, a.writes[i]);
        i := i + 1;
      }
      assert a.writes[..i] == a.writes;
      ok := a.ok;
    }
  }

  /** The external calls downloadFile makes, in the order it makes them. */
  datatype Call =
    | MkdirAllCall(dir: string)
    | CreateCall(path: string)
    | DownloadCall(input: GetObjectInput)
    | SeekCall(path: string)
    | TruncateCall(path: string)
    | CloseCall(path: string)
    | RemoveCall(path: string)

  /** The calls that consume a verdict of the filesystem's oracle. */
  predicate Fallible(c: Call)
  {
    c.MkdirAllCall? || c.CreateCall? || c.SeekCall? || c.TruncateCall?
  }

  function FallibleCount(cs: seq<Call>): nat
  {
    if cs == [] then 0 else (if Fallible(cs[0]) then 1 else 0) + FallibleCount(cs[1..])
  }

  /** The download requests among the calls, in order. */
  function Requests(cs: seq<Call>): seq<GetObjectInput>
  {
    if cs == [] then []
    else (if cs[0].DownloadCall? then [cs[0].input] else []) + Requests(cs[1..])
  }

  /** Why a run was aborted with log.Fatalf. */
  datatype FatalReason =
    | MkdirFailed(dir: string)
    | CreateFailed(path: string)
    | DownloadFailed(key: string)
    | SeekFailed(path: string)
    | TruncateFailed(path: string)

  /** How a call of downloadFile ends: it returns, or it ends the process. */
  datatype Outcome = Completed | Fatal(reason: FatalReason)

  /** What a run leaves at the destination path. */
  datatype FileEffect = Untouched | Written(content: seq<Byte>) | Removed

  datatype KeyRun = KeyRun(outcome: Outcome, calls: seq<Call>, file: FileEffect)

  /** The answers the environment will give: the filesystem's verdicts from
      index `fsNext` on and the downloader's responses from call `dlNext` on. */
  datatype Env = Env(verdict: nat -> bool, fsNext: nat, respond: (GetObjectInput, nat) -> Attempt, dlNext: nat)

  /** The answer to the i-th download call counted from `env.dlNext`. */
  function AttemptAt(env: Env, input: GetObjectInput, i: nat): Attempt
  {
    env.respond(input, env.dlNext + i)
  }

  function Prepend(cs: seq<Call>, r: KeyRun): KeyRun
  {
    r.(calls := cs + r.calls)
  }

  function AfterEffect(files: map<string, seq<Byte>>, path: string, e: FileEffect): map<string, seq<Byte>>
  {
    match e
    case Untouched => files
    case Written(c) => files[path := c]
    case Removed => files - {path}
  }

  /** Attempts `attempt`..3 of the retry loop, the open file holding `content`.
      A failed run closes and removes the file itself; a completed one leaves
      the file open. */
  function RetryLoop(input: GetObjectInput, path: string, attempt: nat, content: seq<Byte>, env: Env): KeyRun
    requires 1 <= attempt <= 3
    decreases 3 - attempt
  {
    var a := env.respond(input, env.dlNext);
    var dl := [DownloadCall(input)];
    if a.ok then
      KeyRun(Completed, dl, Written(ApplyWrites(content, a.writes)))
    else if attempt == 3 then
      KeyRun(Fatal(DownloadFailed(input.key)), dl + [CloseCall(path), RemoveCall(path)], Removed)
    else if !env.verdict(env.fsNext) then
      KeyRun(Fatal(SeekFailed(path)), dl + [SeekCall(path), CloseCall(path), RemoveCall(path)], Removed)
    else if !env.verdict(env.fsNext + 1) then
      KeyRun(Fatal(TruncateFailed(path)),
             dl + [SeekCall(path), TruncateCall(path), CloseCall(path), RemoveCall(path)], Removed)
    else
      Prepend(dl + [SeekCall(path), TruncateCall(path)], RetryLoop(input, path, attempt + 1, [], Next(env)))
  }

  /** One call of downloadFile for `key` by a worker of `bucket` writing under
      `destination`, with `dirs` the directories that exist beforehand. */
  function FetchKey(bucket: string, destination: string, key: string, dirs: set<string>, env: Env): KeyRun
  {
    var path := Join(destination, key);
    var dir := Dir(path);
    if !env.verdict(env.fsNext) then
      KeyRun(Fatal(MkdirFailed(dir)), [MkdirAllCall(dir)], Untouched)
    else if !(env.verdict(env.fsNext + 1) && path !in dirs + {dir}) then
      KeyRun(Fatal(CreateFailed(path)), [MkdirAllCall(dir), CreateCall(path)], Untouched)
    else
      Prepend([MkdirAllCall(dir), CreateCall(path)],
              Finish(path, RetryLoop(GetObjectInput(bucket, key), path, 1, [], env.(fsNext := env.fsNext + 2))))
  }

  /** The deferred file.Close, which runs when downloadFile returns normally. */
  function Finish(path: string, r: KeyRun): KeyRun
  {
    if r.outcome == Completed then r.(calls := r.calls + [CloseCall(path)]) else r
  }

  lemma FinishRequests(path: string, r: KeyRun)
    ensures Requests(Finish(path, r).calls) == Requests(r.calls)
    ensures |Finish(path, r).calls| >= |r.calls|
    ensures forall i :: 0 <= i < |r.calls| ==> Finish(path, r).calls[i] == r.calls[i]
    ensures forall i :: |r.calls| <= i < |Finish(path, r).calls| ==> Finish(path, r).calls[i] == CloseCall(path)
  {
    if r.outcome == Completed {
      RequestsAppend(r.calls, [CloseCall(path)]);
      NoRequests([CloseCall(path)]);
    }
  }

  /** Closing the file adds no preparation call. */
  lemma FinishNoPrepare(path: string, r: KeyRun)
    requires forall i :: 0 <= i < |r.calls| ==> !r.calls[i].MkdirAllCall? && !r.calls[i].CreateCall?
    ensures var f := Finish(path, r).calls;
      forall i :: 0 <= i < |f| ==> !f[i].MkdirAllCall? && !f[i].CreateCall?
  {
  }

  /** The run got past directory and file creation. */
  predicate Prepared(r: KeyRun)
  {
    !(r.outcome.Fatal? && (r.outcome.reason.MkdirFailed? || r.outcome.reason.CreateFailed?))
  }

  // ----- counting calls -----

  lemma {:induction false} FallibleCountAppend(a: seq<Call>, b: seq<Call>)
    ensures FallibleCount(a + b) == FallibleCount(a) + FallibleCount(b)
  {
    if a == [] {
      assert a + b == b;
    } else {
      assert (a + b)[1..] == a[1..] + b;
      FallibleCountAppend(a[1..], b);
    }
  }

  lemma {:induction false} RequestsAppend(a: seq<Call>, b: seq<Call>)
    ensures Requests(a + b) == Requests(a) + Requests(b)
  {
    if a == [] {
      assert a + b == b;
    } else {
      var head := if a[0].DownloadCall? then [a[0].input] else [];
      assert (a + b)[0] == a[0] && (a + b)[1..] == a[1..] + b;
      RequestsAppend(a[1..], b);
      assert Requests(a + b) == head + (Requests(a[1..]) + Requests(b));
      assert head + (Requests(a[1..]) + Requests(b)) == head + Requests(a[1..]) + Requests(b);
    }
  }

  /** Requests of a call sequence that opens with one download and then makes
      only filesystem calls. */
  lemma OneRequest(input: GetObjectInput, tail: seq<Call>)
    requires forall i :: 0 <= i < |tail| ==> !tail[i].DownloadCall?
    ensures Requests([DownloadCall(input)] + tail) == [input]
  {
    RequestsAppend([DownloadCall(input)], tail);
    NoRequests(tail);
  }

  lemma {:induction false} NoRequests(cs: seq<Call>)
    requires forall i :: 0 <= i < |cs| ==> !cs[i].DownloadCall?
    ensures Requests(cs) == []
  {
    if cs != [] {
      NoRequests(cs[1..]);
    }
  }

  // ----- the retry loop -----

  /** The loop goes on to another attempt: this one failed, attempts are left,
      and the seek and the truncate before the retry succeed. */
  predicate Retries(input: GetObjectInput, attempt: nat, env: Env)
  {
    !AttemptAt(env, input, 0).ok && attempt < 3 && env.verdict(env.fsNext) && env.verdict(env.fsNext + 1)
  }

  /** The environment seen by the next attempt. */
  function Next(env: Env): Env
  {
    env.(fsNext := env.fsNext + 2, dlNext := env.dlNext + 1)
  }

  /** An attempt after which the loop stops makes exactly one request, and
      the loop completes exactly when that request succeeds, with its writes
      applied to the current contents. */
  lemma RetryStops(input: GetObjectInput, path: string, attempt: nat, content: seq<Byte>, env: Env)
    requires 1 <= attempt <= 3 && !Retries(input, attempt, env)
    ensures var r := RetryLoop(input, path, attempt, content, env);
      && Requests(r.calls) == [input]
      && (r.outcome == Completed <==> AttemptAt(env, input, 0).ok)
      && (r.outcome == Completed ==> r.file == Written(ApplyWrites(content, AttemptAt(env, input, 0).writes)))
  {
    if AttemptAt(env, input, 0).ok {
      OneRequest(input, []);
    } else if attempt == 3 {
      OneRequest(input, [CloseCall(path), RemoveCall(path)]);
    } else if !env.verdict(env.fsNext) {
      OneRequest(input, [SeekCall(path), CloseCall(path), RemoveCall(path)]);
    } else {
      OneRequest(input, [SeekCall(path), TruncateCall(path), CloseCall(path), RemoveCall(path)]);
    }
  }

  /** An attempt after which the loop retries makes one request, then the
      seek and the truncate, then whatever the next attempts do. */
  lemma RetryContinues(input: GetObjectInput, path: string, attempt: nat, content: seq<Byte>, env: Env)
    requires 1 <= attempt <= 3 && Retries(input, attempt, env)
    ensures var r := RetryLoop(input, path, attempt, content, env);
      var rest := RetryLoop(input, path, attempt + 1, [], Next(env));
      && r == Prepend([DownloadCall(input), SeekCall(path), TruncateCall(path)], rest)
      && Requests(r.calls) == [input] + Requests(rest.calls)
  {
    var head := [DownloadCall(input), SeekCall(path), TruncateCall(path)];
    var rest := RetryLoop(input, path, attempt + 1, [], Next(env));
    RequestsAppend(head, rest.calls);
    OneRequest(input, [SeekCall(path), TruncateCall(path)]);
    assert [DownloadCall(input)] + [SeekCall(path), TruncateCall(path)] == head;
  }

  /** Attempts of the retry loop: between one and the attempts left, every one
      for the same request, every one before the last failed, and the loop
      completed exactly when the last one succeeded. */
  lemma {:induction false} RetryAttempts(input: GetObjectInput, path: string, attempt: nat, content: seq<Byte>, env: Env)
    requires 1 <= attempt <= 3
    decreases 3 - attempt
    ensures var r := RetryLoop(input, path, attempt, content, env);
      var k := |Requests(r.calls)|;
      && 1 <= k <= 4 - attempt
      && (forall i :: 0 <= i < k ==> Requests(r.calls)[i] == input)
      && (forall i :: 0 <= i < k - 1 ==> !AttemptAt(env, input, i).ok)
      && (r.outcome == Completed <==> AttemptAt(env, input, k - 1).ok)
  {
    if !Retries(input, attempt, env) {
      RetryStops(input, path, attempt, content, env);
    } else {
      RetryContinues(input, path, attempt, content, env);
      RetryAttempts(input, path, attempt + 1, [], Next(env));
      var rest := RetryLoop(input, path, attempt + 1, [], Next(env));
      var k := |Requests(rest.calls)| + 1;
      forall i | 0 <= i < k - 1
        ensures !AttemptAt(env, input, i).ok
      {
        if i > 0 {
          assert AttemptAt(env, input, i) == AttemptAt(Next(env), input, i - 1);
        }
      }
      assert AttemptAt(env, input, k - 1) == AttemptAt(Next(env), input, k - 2);
    }
  }

  /** A run keeps only its last attempt's writes: it made at least one
      request, and if it completed, the file holds what the successful attempt
      wrote, applied to `content` when that was the first attempt and to an
      empty file otherwise. */
  ghost predicate KeepsLastWrites(r: KeyRun, content: seq<Byte>, input: GetObjectInput, env: Env)
  {
    var k := |Requests(r.calls)|;
    && 1 <= k
    && (r.outcome == Completed ==>
          r.file == Written(ApplyWrites(if k == 1 then content else [], AttemptAt(env, input, k - 1).writes)))
  }

  /** A completed loop leaves in the file exactly what the successful attempt
      wrote, applied to an empty file once any attempt has failed: the writes of
      failed attempts never survive into the result. */
  lemma {:induction false} RetryNoMixing(input: GetObjectInput, path: string, attempt: nat, content: seq<Byte>, env: Env)
    requires 1 <= attempt <= 3
    decreases 3 - attempt
    ensures KeepsLastWrites(RetryLoop(input, path, attempt, content, env), content, input, env)
  {
    if !Retries(input, attempt, env) {
      RetryStops(input, path, attempt, content, env);
    } else {
      RetryNoMixing(input, path, attempt + 1, [], Next(env));
      NoMixingContinues(input, path, attempt, content, env);
    }
  }

  /** The inductive step of `RetryNoMixing`: a retried attempt passes on the
      outcome and the file of the attempts after it. */
  lemma NoMixingContinues(input: GetObjectInput, path: string, attempt: nat, content: seq<Byte>, env: Env)
    requires 1 <= attempt <= 3 && Retries(input, attempt, env)
    requires KeepsLastWrites(RetryLoop(input, path, attempt + 1, [], Next(env)), [], input, Next(env))
    ensures KeepsLastWrites(RetryLoop(input, path, attempt, content, env), content, input, env)
  {
    var r := RetryLoop(input, path, attempt, content, env);
    var rest := RetryLoop(input, path, attempt + 1, [], Next(env));
    RetryContinues(input, path, attempt, content, env);
    NoMixingStep(r, rest, [DownloadCall(input), SeekCall(path), TruncateCall(path)], input, env);
  }

  /** The step of `RetryNoMixing` on the runs themselves: a run that begins
      with a failed attempt keeps the writes of the run after it, which
      started from an empty file. */
  lemma NoMixingStep(r: KeyRun, rest: KeyRun, head: seq<Call>, input: GetObjectInput, env: Env)
    requires r == Prepend(head, rest) && Requests(r.calls) == [input] + Requests(rest.calls)
    requires KeepsLastWrites(rest, [], input, Next(env))
    ensures 2 <= |Requests(r.calls)| && KeepsLastWrites(r, [], input, env)
  {
    var j := |Requests(rest.calls)|;
    assert |Requests(r.calls)| == j + 1;
    assert AttemptAt(env, input, j) == AttemptAt(Next(env), input, j - 1);
  }

  /** A loop that does not complete is fatal, removes the file, and fails for
      one of three reasons; it fails for the download itself exactly when the
      third attempt was made and failed. */
  lemma {:induction false} RetryFailure(input: GetObjectInput, path: string, attempt: nat, content: seq<Byte>, env: Env)
    requires 1 <= attempt <= 3
    decreases 3 - attempt
    ensures var r := RetryLoop(input, path, attempt, content, env);
      var k := |Requests(r.calls)|;
      && (r.outcome == Completed <==> r.file.Written?)
      && (r.outcome != Completed ==>
            r.file == Removed
            && r.outcome.reason in {DownloadFailed(input.key), SeekFailed(path), TruncateFailed(path)})
      && (r.outcome == Fatal(DownloadFailed(input.key)) <==>
            attempt + k - 1 == 3 && !AttemptAt(env, input, k - 1).ok)
  {
    if !Retries(input, attempt, env) {
      RetryStops(input, path, attempt, content, env);
    } else {
      RetryContinues(input, path, attempt, content, env);
      RetryFailure(input, path, attempt + 1, [], Next(env));
      RetryAttempts(input, path, attempt + 1, [], Next(env));
      var k := |Requests(RetryLoop(input, path, attempt + 1, [], Next(env)).calls)| + 1;
      assert AttemptAt(env, input, k - 1) == AttemptAt(Next(env), input, k - 2);
    }
  }

  /** The retry loop opens with a download and never creates directories or
      files, nor fails for want of them. */
  lemma {:induction false} RetryNoPrepare(input: GetObjectInput, path: string, attempt: nat, content: seq<Byte>, env: Env)
    requires 1 <= attempt <= 3
    decreases 3 - attempt
    ensures var r := RetryLoop(input, path, attempt, content, env);
      && r.calls != [] && r.calls[0] == DownloadCall(input)
      && !(r.outcome.Fatal? && (r.outcome.reason.MkdirFailed? || r.outcome.reason.CreateFailed?))
      && forall i :: 0 <= i < |r.calls| ==> !r.calls[i].MkdirAllCall? && !r.calls[i].CreateCall?
  {
    if Retries(input, attempt, env) {
      RetryNoPrepare(input, path, attempt + 1, [], Next(env));
    }
  }

  // ----- one call of downloadFile -----

  /** A run that gets past MkdirAll and Create: the two preparation calls,
      then the retry loop from attempt 1 on an empty file, with the file
      closed if the loop completes. */
  lemma PreparedRun(bucket: string, destination: string, key: string, dirs: set<string>, env: Env)
    requires var path := Join(destination, key);
      env.verdict(env.fsNext) && env.verdict(env.fsNext + 1) && path !in dirs + {Dir(path)}
    ensures var path := Join(destination, key);
      var input := GetObjectInput(bucket, key);
      var env' := env.(fsNext := env.fsNext + 2);
      var rest := RetryLoop(input, path, 1, [], env');
      var r := FetchKey(bucket, destination, key, dirs, env);
      && r.calls == [MkdirAllCall(Dir(path)), CreateCall(path)] + Finish(path, rest).calls
      && r.outcome == rest.outcome && r.file == rest.file
      && Requests(r.calls) == Requests(rest.calls)
      && (forall i: nat :: AttemptAt(env', input, i) == AttemptAt(env, input, i))
  {
    var path := Join(destination, key);
    var input := GetObjectInput(bucket, key);
    var env' := env.(fsNext := env.fsNext + 2);
    var rest := RetryLoop(input, path, 1, [], env');
    FinishRequests(path, rest);
    RequestsAppend([MkdirAllCall(Dir(path)), CreateCall(path)], Finish(path, rest).calls);
    NoRequests([MkdirAllCall(Dir(path)), CreateCall(path)]);
    forall i: nat
      ensures AttemptAt(env', input, i) == AttemptAt(env, input, i)
    {
    }
  }

  /** Preparation comes first: the call log opens with MkdirAll of the parent
      directory, then (if that succeeded) Create of the destination file, and
      neither happens again; so every download comes after both. */
  lemma PreparesFirst(bucket: string, destination: string, key: string, dirs: set<string>, env: Env)
    ensures var r := FetchKey(bucket, destination, key, dirs, env);
      var path := Join(destination, key);
      && |r.calls| >= 1 && r.calls[0] == MkdirAllCall(Dir(path))
      && (r.outcome != Fatal(MkdirFailed(Dir(path))) ==> |r.calls| >= 2 && r.calls[1] == CreateCall(path))
      && (forall i :: 2 <= i < |r.calls| ==> !r.calls[i].MkdirAllCall? && !r.calls[i].CreateCall?)
      && (forall i :: 0 <= i < |r.calls| && r.calls[i].DownloadCall? ==> 2 <= i)
  {
    var path := Join(destination, key);
    if env.verdict(env.fsNext) && env.verdict(env.fsNext + 1) && path !in dirs + {Dir(path)} {
      var input := GetObjectInput(bucket, key);
      var env' := env.(fsNext := env.fsNext + 2);
      var rest := RetryLoop(input, path, 1, [], env');
      var tail := Finish(path, rest).calls;
      var r := FetchKey(bucket, destination, key, dirs, env);
      assert r.calls == [MkdirAllCall(Dir(path)), CreateCall(path)] + tail;
      RetryNoPrepare(input, path, 1, [], env');
      FinishNoPrepare(path, rest);
      forall i | 2 <= i < |r.calls|
        ensures !r.calls[i].MkdirAllCall? && !r.calls[i].CreateCall?
      {
        assert r.calls[i] == tail[i - 2];
      }
    }
  }

  /** When directory or file creation fails the downloader is never called and
      the file is left alone; these are the only runs without a download. */
  lemma PrepareFailure(bucket: string, destination: string, key: string, dirs: set<string>, env: Env)
    ensures var r := FetchKey(bucket, destination, key, dirs, env);
      && (!Prepared(r) <==> Requests(r.calls) == [])
      && (!Prepared(r) ==> r.file == Untouched && r.outcome != Completed)
  {
    var path := Join(destination, key);
    var dir := Dir(path);
    var input := GetObjectInput(bucket, key);
    if !env.verdict(env.fsNext) {
      NoRequests([MkdirAllCall(dir)]);
    } else if !(env.verdict(env.fsNext + 1) && path !in dirs + {dir}) {
      NoRequests([MkdirAllCall(dir), CreateCall(path)]);
    } else {
      var env' := env.(fsNext := env.fsNext + 2);
      PreparedRun(bucket, destination, key, dirs, env);
      RetryAttempts(input, path, 1, [], env');
      RetryNoPrepare(input, path, 1, [], env');
    }
  }

  /** A prepared run makes one to three download attempts, each for the
      worker's bucket and the key being processed; every attempt but the last
      failed, and the run completed exactly when the last one succeeded. */
  lemma Attempts(bucket: string, destination: string, key: string, dirs: set<string>, env: Env)
    ensures var r := FetchKey(bucket, destination, key, dirs, env);
      var k := |Requests(r.calls)|;
      && k <= 3
      && (forall i :: 0 <= i < k ==> Requests(r.calls)[i] == GetObjectInput(bucket, key))
      && (Prepared(r) ==>
            && 1 <= k
            && (forall i :: 0 <= i < k - 1 ==> !AttemptAt(env, GetObjectInput(bucket, key), i).ok)
            && (r.outcome == Completed <==> AttemptAt(env, GetObjectInput(bucket, key), k - 1).ok))
  {
    var path := Join(destination, key);
    var dir := Dir(path);
    var input := GetObjectInput(bucket, key);
    if !env.verdict(env.fsNext) {
      NoRequests([MkdirAllCall(dir)]);
    } else if !(env.verdict(env.fsNext + 1) && path !in dirs + {dir}) {
      NoRequests([MkdirAllCall(dir), CreateCall(path)]);
    } else {
      var env' := env.(fsNext := env.fsNext + 2);
      PreparedRun(bucket, destination, key, dirs, env);
      RetryAttempts(input, path, 1, [], env');
      RetryNoPrepare(input, path, 1, [], env');
    }
  }

  /** No content corruption on retry: a completed run leaves in the file
      exactly the bytes the successful (last) attempt wrote into an empty file,
      whatever the failed attempts before it wrote. */
  lemma NoMixing(bucket: string, destination: string, key: string, dirs: set<string>, env: Env)
    ensures var r := FetchKey(bucket, destination, key, dirs, env);
      var k := |Requests(r.calls)|;
      r.outcome == Completed ==>
        1 <= k && r.file == Written(ApplyWrites([], AttemptAt(env, GetObjectInput(bucket, key), k - 1).writes))
  {
    var path := Join(destination, key);
    var dir := Dir(path);
    var input := GetObjectInput(bucket, key);
    if env.verdict(env.fsNext) && env.verdict(env.fsNext + 1) && path !in dirs + {dir} {
      var env' := env.(fsNext := env.fsNext + 2);
      PreparedRun(bucket, destination, key, dirs, env);
      RetryNoMixing(input, path, 1, [], env');
      KeepsLastWritesCarried(FetchKey(bucket, destination, key, dirs, env), RetryLoop(input, path, 1, [], env'),
                             input, env, env');
    }
  }

  /** A run with the outcome, file and requests of another, whose attempts
      are answered alike, keeps the last writes as the other does. */
  lemma KeepsLastWritesCarried(r: KeyRun, rest: KeyRun, input: GetObjectInput, env: Env, env': Env)
    requires r.outcome == rest.outcome && r.file == rest.file && Requests(r.calls) == Requests(rest.calls)
    requires env'.respond == env.respond && env'.dlNext == env.dlNext
    requires KeepsLastWrites(rest, [], input, env')
    ensures KeepsLastWrites(r, [], input, env)
  {
    var k := |Requests(rest.calls)|;
    assert AttemptAt(env', input, k - 1) == AttemptAt(env, input, k - 1);
  }

  /** A prepared run that does not complete removes the file; it fails for the
      download itself exactly when three attempts were made and all failed,
      and otherwise because the seek or the truncate before a retry failed. */
  lemma FailureRemovesFile(bucket: string, destination: string, key: string, dirs: set<string>, env: Env)
    ensures var r := FetchKey(bucket, destination, key, dirs, env);
      var path := Join(destination, key);
      var input := GetObjectInput(bucket, key);
      var k := |Requests(r.calls)|;
      && (r.outcome == Completed <==> r.file.Written?)
      && (Prepared(r) && r.outcome != Completed ==>
            r.file == Removed && r.outcome.reason in {DownloadFailed(key), SeekFailed(path), TruncateFailed(path)})
      && (r.outcome == Fatal(DownloadFailed(key)) <==>
            k == 3 && forall i :: 0 <= i < 3 ==> !AttemptAt(env, input, i).ok)
  {
    var path := Join(destination, key);
    var dir := Dir(path);
    var input := GetObjectInput(bucket, key);
    Attempts(bucket, destination, key, dirs, env);
    PrepareFailure(bucket, destination, key, dirs, env);
    if env.verdict(env.fsNext) && env.verdict(env.fsNext + 1) && path !in dirs + {dir} {
      var env' := env.(fsNext := env.fsNext + 2);
      PreparedRun(bucket, destination, key, dirs, env);
      RetryAttempts(input, path, 1, [], env');
      RetryFailure(input, path, 1, [], env');
    }
  }

  /** When every filesystem call succeeds and all three attempts fail, the run
      is aborted for the download after exactly three attempts. */
  lemma RetryExhaustion(bucket: string, destination: string, key: string, dirs: set<string>, env: Env)
    requires forall n :: env.fsNext <= n < env.fsNext + 6 ==> env.verdict(n)
    requires Join(destination, key) !in dirs + {Dir(Join(destination, key))}
    requires forall i :: 0 <= i < 3 ==> !AttemptAt(env, GetObjectInput(bucket, key), i).ok
    ensures var r := FetchKey(bucket, destination, key, dirs, env);
      && r.outcome == Fatal(DownloadFailed(key))
      && r.file == Removed
      && |Requests(r.calls)| == 3
  {
    var input := GetObjectInput(bucket, key);
    assert env.verdict(env.fsNext) && env.verdict(env.fsNext + 1);
    assert !AttemptAt(env, input, 0).ok;
    FailureRemovesFile(bucket, destination, key, dirs, env);
    Attempts(bucket, destination, key, dirs, env);
  }

  /** The retry scenario of the tests: the first attempt writes a partial
      payload at offset 0 and fails, the second writes the full payload at
      offset 0 and succeeds; the file then holds exactly the full payload. */
  lemma PartialThenFull(bucket: string, destination: string, key: string, dirs: set<string>, env: Env,
                        partial: seq<Byte>, full: seq<Byte>)
    requires forall n :: env.fsNext <= n < env.fsNext + 4 ==> env.verdict(n)
    requires Join(destination, key) !in dirs + {Dir(Join(destination, key))}
    requires AttemptAt(env, GetObjectInput(bucket, key), 0) == Attempt([Write(0, partial)], false)
    requires AttemptAt(env, GetObjectInput(bucket, key), 1) == Attempt([Write(0, full)], true)
    ensures var r := FetchKey(bucket, destination, key, dirs, env);
      && r.outcome == Completed
      && r.file == Written(full)
      && |Requests(r.calls)| == 2
  {
    assert env.verdict(env.fsNext) && env.verdict(env.fsNext + 1);
    assert env.verdict(env.fsNext + 2) && env.verdict(env.fsNext + 3);
    WholeWriteFromEmpty(full);
    Attempts(bucket, destination, key, dirs, env);
    NoMixing(bucket, destination, key, dirs, env);
  }

  // ----- draining the channel -----

  /** Where a worker's drain ends: how, the state it leaves, and the
      directories that then exist. */
  datatype Drained = Drained(outcome: Outcome, state: Observed, dirs: set<string>)

  /** Reference definition of Worker.Start on the keys still to be received:
      each key's downloadFile runs as `FetchKey` says, on the filesystem's and
      the downloader's answers from where the previous key left off, and the
      first fatal run ends the process. */
  function Drain(bucket: string, destination: string, keys: seq<string>, o: Observed, dirs: set<string>,
                 verdict: nat -> bool, respond: (GetObjectInput, nat) -> Attempt): Drained
    decreases |keys|
  {
    if keys == [] then Drained(Completed, o, dirs)
    else
      var path := Join(destination, keys[0]);
      var run := FetchKey(bucket, destination, keys[0], dirs, Env(verdict, o.fallible, respond, |o.requests|));
      var o' := Settle(o, path, run);
      var dirs' := if run.outcome == Fatal(MkdirFailed(Dir(path))) then dirs else dirs + {Dir(path)};
      if run.outcome.Fatal? then Drained(run.outcome, o', dirs')
      else Drain(bucket, destination, keys[1..], o', dirs', verdict, respond)
  }

  /** Draining from index i is running key i, then draining from i + 1. */
  lemma DrainStep(bucket: string, destination: string, keys: seq<string>, i: nat, o: Observed, dirs: set<string>,
                  verdict: nat -> bool, respond: (GetObjectInput, nat) -> Attempt)
    requires i < |keys|
    ensures var path := Join(destination, keys[i]);
      var run := FetchKey(bucket, destination, keys[i], dirs, Env(verdict, o.fallible, respond, |o.requests|));
      var o' := Settle(o, path, run);
      var dirs' := if run.outcome == Fatal(MkdirFailed(Dir(path))) then dirs else dirs + {Dir(path)};
      Drain(bucket, destination, keys[i..], o, dirs, verdict, respond)
        == if run.outcome.Fatal? then Drained(run.outcome, o', dirs')
           else Drain(bucket, destination, keys[i + 1..], o', dirs', verdict, respond)
  {
    assert keys[i..][0] == keys[i] && keys[i..][1..] == keys[i + 1..];
  }

  /** A drain that ends normally keeps every file that existed and leaves a
      file at the local path of every key it received. */
  lemma {:induction false} DrainedFilesExist(bucket: string, destination: string, keys: seq<string>, o: Observed,
                                             dirs: set<string>, verdict: nat -> bool,
                                             respond: (GetObjectInput, nat) -> Attempt)
    decreases |keys|
    ensures var d := Drain(bucket, destination, keys, o, dirs, verdict, respond);
      d.outcome == Completed ==>
        && (forall p :: p in o.files ==> p in d.state.files)
        && (forall k :: k in keys ==> Join(destination, k) in d.state.files)
  {
    if keys != [] {
      var path := Join(destination, keys[0]);
      var env := Env(verdict, o.fallible, respond, |o.requests|);
      var run := FetchKey(bucket, destination, keys[0], dirs, env);
      if run.outcome == Completed {
        FailureRemovesFile(bucket, destination, keys[0], dirs, env);
        var o' := Settle(o, path, run);
        assert path in o'.files;
        assert forall p :: p in o.files ==> p in o'.files;
        var dirs' := if run.outcome == Fatal(MkdirFailed(Dir(path))) then dirs else dirs + {Dir(path)};
        DrainedFilesExist(bucket, destination, keys[1..], o', dirs', verdict, respond);
        var d := Drain(bucket, destination, keys[1..], o', dirs', verdict, respond);
        assert Drain(bucket, destination, keys, o, dirs, verdict, respond) == d;
        if d.outcome == Completed {
          assert path in d.state.files;
          forall k | k in keys
            ensures Join(destination, k) in d.state.files
          {
            if k != keys[0] {
              assert k in keys[1..];
            }
          }
        }
      }
    }
  }

  // ----- the worker -----

  /** A download worker. The ghost fields record, for the proofs, the keys
      handed to downloadFile and every external call made, in order. */
  class Worker {
    const id: int
    const downloader: Downloader
    const bucket: string
    const destination: string
    const filesChan: KeyChannel
    const waitGroup: WaitGroup
    const totalFiles: Counter
    const finishedFiles: Counter
    const fs: FileSystem
    ghost var processed: seq<string>
    ghost var calls: seq<Call>

    constructor (id: int, downloader: Downloader, bucket: string, destination: string,
                 filesChan: KeyChannel, waitGroup: WaitGroup, totalFiles: Counter,
                 finishedFiles: Counter, fs: FileSystem)
      ensures this.id == id && this.downloader == downloader && this.bucket == bucket
      ensures this.destination == destination && this.filesChan == filesChan
      ensures this.waitGroup == waitGroup && this.totalFiles == totalFiles
      ensures this.finishedFiles == finishedFiles && this.fs == fs
      ensures processed == [] && calls == []
    {
      this.id, this.downloader, this.bucket, this.destination := id, downloader, bucket, destination;
      this.filesChan, this.waitGroup, this.totalFiles := filesChan, waitGroup, totalFiles;
      this.finishedFiles, this.fs := finishedFiles, fs;
      processed, calls := [], [];
    }

    /** Start: hand every key taken from the channel to DownloadFile, in the
        order received, until the channel is closed and drained; the deferred
        WaitGroup.Done runs only on that normal return, since a fatal abort
        ends the process first. */
    method Start() returns (outcome: Outcome)
      requires filesChan.Valid() && filesChan.closed && waitGroup.count > 0
      modifies this, filesChan, fs, downloader, finishedFiles, waitGroup
      ensures filesChan.Valid() && filesChan.closed && filesChan.sent == old(filesChan.sent)
      ensures old(filesChan.received) <= filesChan.received
      ensures processed == old(processed) + filesChan.sent[old(filesChan.received)..filesChan.received]
      ensures outcome == Completed ==>
        && filesChan.received == |filesChan.sent|
        && finishedFiles.value == old(finishedFiles.value) + (filesChan.received - old(filesChan.received))
        && waitGroup.count == old(waitGroup.count) - 1
      ensures outcome.Fatal? ==>
        && old(filesChan.received) < filesChan.received
        && finishedFiles.value == old(finishedFiles.value) + (filesChan.received - old(filesChan.received)) - 1
        && waitGroup.count == old(waitGroup.count)
      ensures var d := Drain(bucket, destination, old(filesChan.sent[filesChan.received..]), old(Now()), old(fs.dirs),
                             fs.verdict, downloader.respond);
        outcome == d.outcome && Now() == d.state && fs.dirs == d.dirs
    {
      outcome := ReceiveAll();
      if outcome.Fatal? {
        return;
      }
      waitGroup.Done();  // deferred
    }

    /** The `for key := range w.FilesChan` loop of Start. */
    method ReceiveAll() returns (outcome: Outcome)
      requires filesChan.Valid() && filesChan.closed
      modifies this, filesChan, fs, downloader, finishedFiles
      ensures filesChan.Valid() && filesChan.closed && filesChan.sent == old(filesChan.sent)
      ensures old(filesChan.received) <= filesChan.received
      ensures processed == old(processed) + filesChan.sent[old(filesChan.received)..filesChan.received]
      ensures outcome == Completed ==>
        && filesChan.received == |filesChan.sent|
        && finishedFiles.value == old(finishedFiles.value) + (filesChan.received - old(filesChan.received))
      ensures outcome.Fatal? ==>
        && old(filesChan.received) < filesChan.received
        && finishedFiles.value == old(finishedFiles.value) + (filesChan.received - old(filesChan.received)) - 1
      ensures var d := Drain(bucket, destination, old(filesChan.sent[filesChan.received..]), old(Now()), old(fs.dirs),
                             fs.verdict, downloader.respond);
        outcome == d.outcome && Now() == d.state && fs.dirs == d.dirs
    {
      ghost var r0 := filesChan.received;
      ghost var whole := Drain(bucket, destination, filesChan.sent[r0..], Now(), fs.dirs, fs.verdict, downloader.respond);
      while true
        invariant filesChan.Valid() && filesChan.closed && filesChan.sent == old(filesChan.sent)
        invariant r0 <= filesChan.received
        invariant processed == old(processed) + filesChan.sent[r0..filesChan.received]
        invariant finishedFiles.value == old(finishedFiles.value) + (filesChan.received - r0)
        invariant whole == Drain(bucket, destination, filesChan.sent[filesChan.received..], Now(), fs.dirs,
                                 fs.verdict, downloader.respond)
        decreases |filesChan.sent| - filesChan.received
      {
        var ok;
        ok, outcome := DownloadNext();
        if !ok {
          assert whole == Drained(Completed, Now(), fs.dirs);
          return;
        }
        SliceGrows(filesChan.sent, r0, filesChan.received);
        if outcome.Fatal? {
          assert whole == Drained(outcome, Now(), fs.dirs);
          return;
        }
      }
    }

    /** One turn of the `for key := range w.FilesChan` loop: receive a key
        and download it, or find the closed channel drained. */
    method DownloadNext() returns (ok: bool, outcome: Outcome)
      requires filesChan.Valid() && filesChan.closed
      modifies this, filesChan, fs, downloader, finishedFiles
      ensures filesChan.Valid() && filesChan.closed && filesChan.sent == old(filesChan.sent)
      ensures ok == (old(filesChan.received) < |filesChan.sent|)
      ensures !ok ==>
        && filesChan.received == old(filesChan.received) && outcome == Completed
        && processed == old(processed) && finishedFiles.value == old(finishedFiles.value)
        && Now() == old(Now()) && fs.dirs == old(fs.dirs)
        && Drain(bucket, destination, filesChan.sent[filesChan.received..], Now(), fs.dirs,
                 fs.verdict, downloader.respond) == Drained(Completed, Now(), fs.dirs)
      ensures ok ==>
        && filesChan.received == old(filesChan.received) + 1
        && processed == old(processed) + [filesChan.sent[old(filesChan.received)]]
        && finishedFiles.value == old(finishedFiles.value) + (if outcome == Completed then 1 else 0)
        && Drain(bucket, destination, old(filesChan.sent[filesChan.received..]), old(Now()), old(fs.dirs),
                 fs.verdict, downloader.respond)
           == if outcome.Fatal? then Drained(outcome, Now(), fs.dirs)
              else Drain(bucket, destination, filesChan.sent[filesChan.received..], Now(), fs.dirs,
                         fs.verdict, downloader.respond)
    {
      ghost var before, dirs := Now(), fs.dirs;
      var key;
      key, ok := filesChan.Receive();
      if !ok {
        assert filesChan.sent[filesChan.received..] == [];
        outcome := Completed;
        return;
      }
      DrainStep(bucket, destination, filesChan.sent, filesChan.received - 1, before, dirs,
                fs.verdict, downloader.respond);
      outcome := DownloadFile(key);
    }

    /** downloadFile: prepare the destination, then up to three download
        attempts with the file reset in between; the counter moves only on
        success. The whole effect is the run `FetchKey` describes. */
    method DownloadFile(key: string) returns (outcome: Outcome)
      modifies this, fs, downloader, finishedFiles
      ensures var path := Join(destination, key);
        var run := FetchKey(bucket, destination, key, old(fs.dirs),
                            Env(fs.verdict, old(fs.fallibleCalls), downloader.respond, old(|downloader.requests|)));
        && outcome == run.outcome
        && processed == old(processed) + [key]
        && Now() == Settle(old(Now()), path, run)
        && fs.dirs == (if outcome == Fatal(MkdirFailed(Dir(path))) then old(fs.dirs) else old(fs.dirs) + {Dir(path)})
        && finishedFiles.value == old(finishedFiles.value) + (if outcome == Completed then 1 else 0)
    {
      var path := Join(destination, key);
      var dir := Dir(path);
      ghost var o := Now();
      ghost var env := Env(fs.verdict, fs.fallibleCalls, downloader.respond, |downloader.requests|);
      ghost var run := FetchKey(bucket, destination, key, fs.dirs, env);
      processed := processed + [key];

      var ok := fs.MkdirAll(dir);
      calls := calls + [MkdirAllCall(dir)];
      if !ok {
        outcome := Fatal(MkdirFailed(dir));  // log.Fatalf
        assert run == KeyRun(outcome, [MkdirAllCall(dir)], Untouched);
        MkdirFailedSettles(o, dir, path);
        return;
      }

      ok := fs.Create(path);
      calls := calls + [CreateCall(path)];
      if !ok {
        outcome := Fatal(CreateFailed(path));  // log.Fatalf
        assert run == KeyRun(outcome, [MkdirAllCall(dir), CreateCall(path)], Untouched);
        CreateFailedSettles(o, dir, path);
        assert Now().calls == o.calls + [MkdirAllCall(dir), CreateCall(path)];
        return;
      }

      assert Now().calls == o.calls + [MkdirAllCall(dir), CreateCall(path)];
      assert Now() == Created(o, dir, path);
      ghost var retryEnv := Env(fs.verdict, fs.fallibleCalls, downloader.respond, |downloader.requests|);
      assert env.(fsNext := env.fsNext + 2) == retryEnv;
      ghost var r := RetryLoop(GetObjectInput(bucket, key), path, 1, [], retryEnv);
      assert run == Prepend([MkdirAllCall(dir), CreateCall(path)], Finish(path, r));
      outcome := DownloadCreated(key, path, dir, o);
      assert outcome == run.outcome;
      assert Now() == Settle(o, path, run);
    }

    /** downloadFile once the file is created and open: the retry loop, then
        on success the counter, the progress line and the deferred Close. */
    method DownloadCreated(key: string, path: string, dir: string, ghost o: Observed) returns (outcome: Outcome)
      requires Now() == Created(o, dir, path)
      modifies this, fs, downloader, finishedFiles
      ensures var r := RetryLoop(GetObjectInput(bucket, key), path, 1, [],
                                 Env(fs.verdict, old(fs.fallibleCalls), downloader.respond, old(|downloader.requests|)));
        && outcome == r.outcome
        && Now() == Settle(o, path, Prepend([MkdirAllCall(dir), CreateCall(path)], Finish(path, r)))
        && processed == old(processed) && fs.dirs == old(fs.dirs)
        && finishedFiles.value == old(finishedFiles.value) + (if outcome == Completed then 1 else 0)
    {
      PreparedThen(o, dir, path, GetObjectInput(bucket, key),
                   Env(fs.verdict, fs.fallibleCalls, downloader.respond, |downloader.requests|));
      outcome := DownloadWithRetries(GetObjectInput(bucket, key), path);
      if outcome.Fatal? {
        return;
      }

      var finished := finishedFiles.Add(1);
      var total := totalFiles.Load();
      // log.Printf of the progress line: finished/total and the key
      fs.Close(path);  // deferred
      calls := calls + [CloseCall(path)];
    }

    /** What the worker's own bookkeeping, the filesystem and the downloader
        look like now, in the terms `After` speaks of. */
    ghost function Now(): Observed
      reads this, fs, downloader
    {
      Observed(calls, fs.fallibleCalls, downloader.requests, fs.files, fs.open)
    }

    /** The `for attempt := 1; attempt <= 3; attempt++` loop of downloadFile:
        its effect is the run `RetryLoop` describes from attempt 1. A run that
        fails has closed and removed the file; a completed one leaves it open. */
    method DownloadWithRetries(input: GetObjectInput, path: string) returns (outcome: Outcome)
      requires path in fs.files && path in fs.open
      modifies this, fs, downloader
      ensures var r := RetryLoop(input, path, 1, old(fs.files[path]),
                                 Env(fs.verdict, old(fs.fallibleCalls), downloader.respond, old(|downloader.requests|)));
        && outcome == r.outcome
        && Now() == After(old(Now()), path, r)
        && processed == old(processed) && fs.dirs == old(fs.dirs)
    {
      ghost var env := Env(fs.verdict, fs.fallibleCalls, downloader.respond, |downloader.requests|);
      ghost var start := Now();
      ghost var cur := fs.files[path];
      ghost var run := RetryLoop(input, path, 1, cur, env);
      ghost var done: seq<Call> := [];
      AfterNothing(start, path);
      var attempt := 1;
      while true
        invariant 1 <= attempt <= 3
        invariant env == Env(fs.verdict, fs.fallibleCalls, downloader.respond, |downloader.requests|)
        invariant run == Prepend(done, RetryLoop(input, path, attempt, cur, env))
        invariant Now() == After(start, path, KeyRun(Completed, done, Written(cur)))
        invariant path in fs.files && path in fs.open && fs.files[path] == cur
        invariant processed == old(processed) && fs.dirs == old(fs.dirs)
        decreases 3 - attempt
      {
        ghost var before := Now();
        var retry;
        ghost var step;
        outcome, retry, step := AttemptOnce(input, path, attempt, env);
        if !retry {
          ghost var r := RetryLoop(input, path, attempt, cur, env);
          AfterThen(start, path, KeyRun(Completed, done, Written(cur)), r);
          assert run == KeyRun(r.outcome, done + r.calls, r.file);
          return;
        }
        RetryUnrolls(run, done, input, path, attempt, cur, env);
        AfterThen(start, path, KeyRun(Completed, done, Written(cur)), KeyRun(Completed, step, Written([])));
        done, cur := done + step, [];
        env := Next(env);
        attempt := attempt + 1;
      }
    }

    /** One pass of the loop body: a download attempt and, when it fails with
        attempts left, the seek and the truncate that reset the file. `retry`
        says whether the loop goes round again; when it does not, the pass
        ends the run exactly as `RetryLoop` says. */
    method AttemptOnce(input: GetObjectInput, path: string, attempt: nat, ghost env: Env)
      returns (outcome: Outcome, retry: bool, ghost step: seq<Call>)
      requires 1 <= attempt <= 3
      requires path in fs.files && path in fs.open
      requires env == Env(fs.verdict, fs.fallibleCalls, downloader.respond, |downloader.requests|)
      modifies this, fs, downloader
      ensures retry == Retries(input, attempt, env)
      ensures processed == old(processed) && fs.dirs == old(fs.dirs)
      ensures retry ==>
        && step == [DownloadCall(input), SeekCall(path), TruncateCall(path)]
        && Now() == After(old(Now()), path, KeyRun(Completed, step, Written([])))
        && fs.fallibleCalls == old(fs.fallibleCalls) + 2
        && |downloader.requests| == old(|downloader.requests|) + 1
        && path in fs.files && path in fs.open
      ensures !retry ==> var r := RetryLoop(input, path, attempt, old(fs.files[path]), env);
        && outcome == r.outcome
        && Now() == After(old(Now()), path, r)
    {
      DownloadCounts(input);
      ghost var o := Now();
      ghost var r := RetryLoop(input, path, attempt, fs.files[path], env);
      ghost var a := AttemptAt(env, input, 0);
      var ok := downloader.Download(fs, path, input);
      step := [DownloadCall(input)];
      calls := calls + step;
      ghost var downloaded := KeyRun(Completed, step, Written(fs.files[path]));
      assert Now() == After(o, path, downloaded);
      if ok {
        outcome, retry := Completed, false;
        assert r == downloaded;
        return;  // break: success
      }
      // log.Printf of the failed attempt
      ghost var tail;
      outcome, retry, tail := RecoverOrAbort(input, path, attempt, env);
      AfterThen(o, path, downloaded, KeyRun(outcome, tail, if retry then Written([]) else Removed));
      assert [DownloadCall(input)] + [SeekCall(path), TruncateCall(path)]
          == [DownloadCall(input), SeekCall(path), TruncateCall(path)];
      step := step + tail;
      if !retry {
        assert r == KeyRun(outcome, step, Removed);
      }
    }

    /** The rest of the loop body once a download attempt has failed: on the
        last attempt, close and remove the file and abort; otherwise rewind
        the file for the next attempt. */
    method RecoverOrAbort(input: GetObjectInput, path: string, attempt: nat, ghost env: Env)
      returns (outcome: Outcome, retry: bool, ghost tail: seq<Call>)
      requires 1 <= attempt <= 3
      requires path in fs.files && path in fs.open
      requires env.verdict == fs.verdict && env.fsNext == fs.fallibleCalls
      modifies this, fs
      ensures retry == (attempt < 3 && env.verdict(env.fsNext) && env.verdict(env.fsNext + 1))
      ensures processed == old(processed) && fs.dirs == old(fs.dirs)
      ensures retry ==>
        && tail == [SeekCall(path), TruncateCall(path)]
        && Now() == After(old(Now()), path, KeyRun(outcome, tail, Written([])))
        && fs.fallibleCalls == old(fs.fallibleCalls) + 2
        && path in fs.files && path in fs.open
      ensures !retry ==> Now() == After(old(Now()), path, KeyRun(outcome, tail, Removed))
      ensures attempt == 3 ==>
        outcome == Fatal(DownloadFailed(input.key)) && tail == [CloseCall(path), RemoveCall(path)]
      ensures attempt < 3 && !env.verdict(env.fsNext) ==>
        outcome == Fatal(SeekFailed(path)) && tail == [SeekCall(path), CloseCall(path), RemoveCall(path)]
      ensures attempt < 3 && env.verdict(env.fsNext) && !env.verdict(env.fsNext + 1) ==>
        && outcome == Fatal(TruncateFailed(path))
        && tail == [SeekCall(path), TruncateCall(path), CloseCall(path), RemoveCall(path)]
    {
      if attempt == 3 {
        CleanupCounts(path);
        CloseAndRemove(path);
        tail := [CloseCall(path), RemoveCall(path)];
        outcome, retry := Fatal(DownloadFailed(input.key)), false;  // log.Fatalf
        return;
      }
      outcome, retry, tail := Rewind(path, env);
    }

    /** Seek(0, io.SeekStart) and Truncate(0) before the next attempt; when
        either fails the file is closed and removed and the run aborts. */
    method Rewind(path: string, ghost env: Env) returns (outcome: Outcome, retry: bool, ghost tail: seq<Call>)
      requires path in fs.files && path in fs.open
      requires env.verdict == fs.verdict && env.fsNext == fs.fallibleCalls
      modifies this, fs
      ensures retry == (env.verdict(env.fsNext) && env.verdict(env.fsNext + 1))
      ensures processed == old(processed) && fs.dirs == old(fs.dirs)
      ensures retry ==>
        && tail == [SeekCall(path), TruncateCall(path)]
        && Now() == After(old(Now()), path, KeyRun(outcome, tail, Written([])))
        && fs.fallibleCalls == old(fs.fallibleCalls) + 2
        && path in fs.files && path in fs.open
      ensures !retry ==> Now() == After(old(Now()), path, KeyRun(outcome, tail, Removed))
      ensures !env.verdict(env.fsNext) ==>
        outcome == Fatal(SeekFailed(path)) && tail == [SeekCall(path), CloseCall(path), RemoveCall(path)]
      ensures env.verdict(env.fsNext) && !env.verdict(env.fsNext + 1) ==>
        && outcome == Fatal(TruncateFailed(path))
        && tail == [SeekCall(path), TruncateCall(path), CloseCall(path), RemoveCall(path)]
    {
      ghost var start := Now();
      RewindCounts(path);
      var ok := fs.Seek(path);
      tail, calls := [SeekCall(path)], calls + [SeekCall(path)];
      if !ok {
        tail := Abandon(path, start, tail);
        outcome, retry := Fatal(SeekFailed(path)), false;  // log.Fatalf
        return;
      }
      ok := fs.Truncate(path);
      StepCounts(tail, [TruncateCall(path)]);
      tail, calls := tail + [TruncateCall(path)], calls + [TruncateCall(path)];
      if !ok {
        tail := Abandon(path, start, tail);
        outcome, retry := Fatal(TruncateFailed(path)), false;  // log.Fatalf
        return;
      }
      outcome, retry := Completed, true;
    }

    /** A failed seek or truncate, which left the file as it was: close and
        remove it, and the run so far ends with the file removed. */
    method Abandon(path: string, ghost start: Observed, ghost tail: seq<Call>) returns (ghost full: seq<Call>)
      requires path in fs.files && path in fs.open
      requires Now() == After(start, path, KeyRun(Completed, tail, Untouched))
      modifies this, fs
      ensures full == tail + [CloseCall(path), RemoveCall(path)]
      ensures Now() == After(start, path, KeyRun(Completed, full, Removed))
      ensures processed == old(processed) && fs.dirs == old(fs.dirs)
    {
      CleanupCounts(path);
      StepCounts(tail, [CloseCall(path), RemoveCall(path)]);
      CloseAndRemove(path);
      full := tail + [CloseCall(path), RemoveCall(path)];
    }

    /** The cleanup before each log.Fatalf of the retry loop: close the file
        and remove it. */
    method CloseAndRemove(path: string)
      modifies this, fs
      ensures calls == old(calls) + [CloseCall(path), RemoveCall(path)] && processed == old(processed)
      ensures fs.files == old(fs.files) - {path} && fs.open == old(fs.open) - {path}
      ensures fs.dirs == old(fs.dirs) && fs.fallibleCalls == old(fs.fallibleCalls)
    {
      fs.Close(path);
      fs.Remove(path);
      calls := calls + [CloseCall(path), RemoveCall(path)];
    }
  }

  /** Counts of a single download call. */
  lemma DownloadCounts(input: GetObjectInput)
    ensures FallibleCount([DownloadCall(input)]) == 0 && Requests([DownloadCall(input)]) == [input]
  {
    assert [DownloadCall(input)][1..] == [];
  }

  /** Counts of the seek and the truncate, both fallible. */
  lemma RewindCounts(path: string)
    ensures FallibleCount([SeekCall(path)]) == 1 && Requests([SeekCall(path)]) == []
    ensures FallibleCount([TruncateCall(path)]) == 1 && Requests([TruncateCall(path)]) == []
  {
    assert [SeekCall(path)][1..] == [];
    assert [TruncateCall(path)][1..] == [];
  }

  /** Counts of the cleanup calls, none of which is fallible or a download. */
  lemma CleanupCounts(path: string)
    ensures FallibleCount([CloseCall(path)]) == 0 && Requests([CloseCall(path)]) == []
    ensures FallibleCount([CloseCall(path), RemoveCall(path)]) == 0
    ensures Requests([CloseCall(path), RemoveCall(path)]) == []
  {
    assert [CloseCall(path), RemoveCall(path)][1..] == [RemoveCall(path)];
    assert [RemoveCall(path)][1..] == [];
    assert [CloseCall(path)][1..] == [];
  }

  /** The state after MkdirAll and Create both succeed: the file exists,
      empty and open. */
  function Created(o: Observed, dir: string, path: string): Observed
  {
    Observed(o.calls + [MkdirAllCall(dir), CreateCall(path)], o.fallible + 2, o.requests,
             o.files[path := []], o.open + {path})
  }

  /** The state after a whole call of downloadFile: as `After` says, and a
      completed run has closed its file. */
  function Settle(o: Observed, path: string, run: KeyRun): Observed
  {
    var a := After(o, path, run);
    if run.outcome == Completed then a.(open := a.open - {path}) else a
  }

  /** A slice one element longer is the shorter slice and that element. */
  lemma SliceGrows<T>(s: seq<T>, i: nat, j: nat)
    requires i < j <= |s|
    ensures s[i..j] == s[i..j - 1] + [s[j - 1]]
  {
  }

  /** MkdirAll failed: one fallible call made, nothing else changed. */
  lemma MkdirFailedSettles(o: Observed, dir: string, path: string)
    ensures Settle(o, path, KeyRun(Fatal(MkdirFailed(dir)), [MkdirAllCall(dir)], Untouched))
         == Observed(o.calls + [MkdirAllCall(dir)], o.fallible + 1, o.requests, o.files, o.open)
  {
    PrepareCounts(dir, path);
    assert o.requests + [] == o.requests;
  }

  /** Create failed: two fallible calls made, nothing else changed. */
  lemma CreateFailedSettles(o: Observed, dir: string, path: string)
    ensures Settle(o, path, KeyRun(Fatal(CreateFailed(path)), [MkdirAllCall(dir), CreateCall(path)], Untouched))
         == Observed(o.calls + [MkdirAllCall(dir), CreateCall(path)], o.fallible + 2, o.requests, o.files, o.open)
  {
    PrepareCounts(dir, path);
    assert o.requests + [] == o.requests;
  }

  /** A prepared file handed to the retry loop, then closed when the loop
      completes, ends as `Settle` says of the whole run. */
  lemma PreparedThen(o: Observed, dir: string, path: string, input: GetObjectInput, env: Env)
    ensures var r := RetryLoop(input, path, 1, [], env);
      var a := After(Created(o, dir, path), path, r);
      Settle(o, path, Prepend([MkdirAllCall(dir), CreateCall(path)], Finish(path, r)))
        == if r.outcome == Completed then a.(calls := a.calls + [CloseCall(path)], open := a.open - {path}) else a
  {
    var r := RetryLoop(input, path, 1, [], env);
    RetryFailure(input, path, 1, [], env);
    if r.outcome == Completed {
      CreatedThenCompletes(o, dir, path, r);
    } else {
      CreatedThenFails(o, dir, path, r);
    }
  }

  lemma CreatedThenCompletes(o: Observed, dir: string, path: string, r: KeyRun)
    requires r.outcome == Completed && r.file.Written?
    ensures var a := After(Created(o, dir, path), path, r);
      Settle(o, path, Prepend([MkdirAllCall(dir), CreateCall(path)], Finish(path, r)))
        == a.(calls := a.calls + [CloseCall(path)], open := a.open - {path})
  {
    var prep := [MkdirAllCall(dir), CreateCall(path)];
    var calls := r.calls + [CloseCall(path)];
    PrepareCounts(dir, path);
    CleanupCounts(path);
    StepCounts(prep, calls);
    StepCounts(r.calls, [CloseCall(path)]);
    assert FallibleCount(prep + calls) == 2 + FallibleCount(r.calls);
    assert Requests(prep + calls) == Requests(r.calls);
    assert o.calls + (prep + calls) == o.calls + prep + r.calls + [CloseCall(path)];
    assert o.files[path := []][path := r.file.content] == o.files[path := r.file.content];
    assert o.open + {path} - {path} == o.open - {path};
  }

  lemma CreatedThenFails(o: Observed, dir: string, path: string, r: KeyRun)
    requires r.outcome != Completed && r.file == Removed
    ensures Settle(o, path, Prepend([MkdirAllCall(dir), CreateCall(path)], Finish(path, r)))
         == After(Created(o, dir, path), path, r)
  {
    FailedRunSettles(o, dir, path, r);
    FailedRunAfterCreated(o, dir, path, r);
  }

  /** A failed run, preparation included, ends with the file removed and
      every call and request it made appended. */
  lemma FailedRunSettles(o: Observed, dir: string, path: string, r: KeyRun)
    requires r.outcome != Completed && r.file == Removed
    ensures Settle(o, path, Prepend([MkdirAllCall(dir), CreateCall(path)], Finish(path, r)))
         == Observed(o.calls + [MkdirAllCall(dir), CreateCall(path)] + r.calls, o.fallible + 2 + FallibleCount(r.calls),
                     o.requests + Requests(r.calls), o.files - {path}, o.open - {path})
  {
    var prep := [MkdirAllCall(dir), CreateCall(path)];
    var cs := prep + r.calls;
    PrepareCounts(dir, path);
    StepCounts(prep, r.calls);
    assert Prepend(prep, Finish(path, r)) == KeyRun(r.outcome, cs, Removed);
    assert o.calls + cs == o.calls + prep + r.calls;
    assert FallibleCount(cs) == 2 + FallibleCount(r.calls);
    assert Requests(cs) == Requests(r.calls) by {
      assert [] + Requests(r.calls) == Requests(r.calls);
    }
    assert Settle(o, path, KeyRun(r.outcome, cs, Removed))
        == Observed(o.calls + cs, o.fallible + FallibleCount(cs), o.requests + Requests(cs), o.files - {path}, o.open - {path});
  }

  /** The same failed run, counted from the created file. */
  lemma FailedRunAfterCreated(o: Observed, dir: string, path: string, r: KeyRun)
    requires r.file == Removed
    ensures After(Created(o, dir, path), path, r)
         == Observed(o.calls + [MkdirAllCall(dir), CreateCall(path)] + r.calls, o.fallible + 2 + FallibleCount(r.calls),
                     o.requests + Requests(r.calls), o.files - {path}, o.open - {path})
  {
    UpdateThenRemove(o.files, path, []);
    assert o.open + {path} - {path} == o.open - {path};
  }

  /** One more pass of the retry loop: the run still ahead after `done`
      continues, once the seek and the truncate are done, from the next
      attempt with an empty file. */
  lemma RetryUnrolls(run: KeyRun, done: seq<Call>, input: GetObjectInput, path: string,
                     attempt: nat, content: seq<Byte>, env: Env)
    requires 1 <= attempt <= 3 && Retries(input, attempt, env)
    requires run == Prepend(done, RetryLoop(input, path, attempt, content, env))
    ensures run == Prepend(done + [DownloadCall(input), SeekCall(path), TruncateCall(path)],
                           RetryLoop(input, path, attempt + 1, [], Next(env)))
  {
    RetryContinues(input, path, attempt, content, env);
    var rest := RetryLoop(input, path, attempt + 1, [], Next(env));
    assert done + ([DownloadCall(input), SeekCall(path), TruncateCall(path)] + rest.calls)
        == done + [DownloadCall(input), SeekCall(path), TruncateCall(path)] + rest.calls;
  }

  /** The part of the state a call of downloadFile changes: the calls made,
      the filesystem's fallible-call count, the downloader's requests, the
      files and the open handles. */
  datatype Observed = Observed(calls: seq<Call>, fallible: nat, requests: seq<GetObjectInput>,
                               files: map<string, seq<Byte>>, open: set<string>)

  /** The state after the calls of `r`, made on the file at `path`: a run that
      removes the file has also closed it. */
  function After(o: Observed, path: string, r: KeyRun): Observed
  {
    Observed(o.calls + r.calls, o.fallible + FallibleCount(r.calls), o.requests + Requests(r.calls),
             AfterEffect(o.files, path, r.file), if r.file == Removed then o.open - {path} else o.open)
  }

  /** No calls and the file's current contents: nothing changes. */
  lemma AfterNothing(o: Observed, path: string)
    requires path in o.files
    ensures After(o, path, KeyRun(Completed, [], Written(o.files[path]))) == o
  {
    assert o.calls + [] == o.calls;
    assert o.requests + [] == o.requests;
    assert o.files[path := o.files[path]] == o.files;
  }

  /** A run that leaves the file written, followed by one that writes or
      removes it, is the run of both call sequences with the second's effect. */
  lemma AfterThen(o: Observed, path: string, a: KeyRun, b: KeyRun)
    requires a.file.Written? && !b.file.Untouched?
    ensures After(After(o, path, a), path, b) == After(o, path, KeyRun(b.outcome, a.calls + b.calls, b.file))
  {
    var lhs := After(After(o, path, a), path, b);
    var rhs := After(o, path, KeyRun(b.outcome, a.calls + b.calls, b.file));
    StepCounts(a.calls, b.calls);
    assert lhs.calls == rhs.calls by {
      assert o.calls + a.calls + b.calls == o.calls + (a.calls + b.calls);
    }
    assert lhs.fallible == rhs.fallible;
    assert lhs.requests == rhs.requests by {
      assert o.requests + Requests(a.calls) + Requests(b.calls) == o.requests + (Requests(a.calls) + Requests(b.calls));
    }
    assert lhs.files == rhs.files by {
      if b.file.Removed? {
        UpdateThenRemove(o.files, path, a.file.content);
      } else {
        UpdateTwice(o.files, path, a.file.content, b.file.content);
      }
    }
    assert lhs.open == rhs.open;
  }

  /** Writing a file and then removing it leaves what removing it leaves. */
  lemma UpdateThenRemove(m: map<string, seq<Byte>>, k: string, v: seq<Byte>)
    ensures m[k := v] - {k} == m - {k}
  {
    assert (m[k := v] - {k}).Keys == (m - {k}).Keys;
  }

  /** The second of two writes to a file is the one that stays. */
  lemma UpdateTwice(m: map<string, seq<Byte>>, k: string, v: seq<Byte>, w: seq<Byte>)
    ensures m[k := v][k := w] == m[k := w]
  {
    assert m[k := v][k := w].Keys == m[k := w].Keys;
  }

  /** Both counts of a call log grow by the counts of what is appended. */
  lemma StepCounts(done: seq<Call>, more: seq<Call>)
    ensures FallibleCount(done + more) == FallibleCount(done) + FallibleCount(more)
    ensures Requests(done + more) == Requests(done) + Requests(more)
  {
    FallibleCountAppend(done, more);
    RequestsAppend(done, more);
  }

  /** Counts of the two preparation calls. */
  lemma PrepareCounts(dir: string, path: string)
    ensures FallibleCount([MkdirAllCall(dir)]) == 1 && Requests([MkdirAllCall(dir)]) == []
    ensures FallibleCount([MkdirAllCall(dir), CreateCall(path)]) == 2
    ensures Requests([MkdirAllCall(dir), CreateCall(path)]) == []
  {
    assert [MkdirAllCall(dir), CreateCall(path)][1..] == [CreateCall(path)];
    assert [CreateCall(path)][1..] == [];
    assert [MkdirAllCall(dir)][1..] == [];
  }
}
