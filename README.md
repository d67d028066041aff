# s3cpbp core: listing, region lookup and retrying download workers

s3cpbp copies the objects of an S3 bucket that share a prefix into a local
directory:

- a lister pages through ListObjectsV2, counts every key and sends it on a channel;
- a pool of workers drains that channel and downloads each object;
- before any of this, the bucket's region is looked up.

This project models those three pieces in Dafny and proves what each promises.

- `Listing` (listing.dfy) models `ListFiles`:
  - The paginator hands out the pages the service returns for one request, in order.
  - The keys of each good page are counted, then sent.
  - The first page that reports an error ends the listing.
  - The channel is closed in every case.
  - `Emitted` is the reference definition of the keys sent. `ListFiles` is proved to send exactly those keys and to count them.
  - The channel records, for each send, the total the lister's counter held at that moment. `ListFiles` is proved to leave old total + j + 1 there for the j-th key it sends: every key is counted before it is sent.
- `Region` (region.dfy) models `GetBucketRegion`:
  - One GetBucketLocation call for the bucket.
  - An error is passed through with an empty region.
  - An empty location constraint (US Standard) becomes `us-east-1`.
- `Download` (worker.dfy) models `Worker.Start` and `Worker.downloadFile`:
  - `FetchKey` is the reference definition of one call of downloadFile, with `RetryLoop` defining its retry loop. It is a pure function of:
    - the answers the filesystem gives (a verdict per fallible call),
    - the answers the downloader gives (writes and success per call).
  - The class `Worker` runs that step by step against a modelled filesystem (`Files.FileSystem`), a downloader oracle (`Download.Downloader`) and the synchronisation objects (`Sync.Counter`, `Sync.WaitGroup`, `Sync.KeyChannel`).
  - `DownloadFile` is proved to leave exactly the state and the call history `FetchKey` describes.
  - `Drain` folds `FetchKey` over the keys a worker receives. `Start` is proved to end with `Drain`'s outcome, state and directories.
  - Lemmas about `FetchKey` state what the source promises:
    - directory and file are made once, before any download;
    - at most three attempts are made;
    - a completed file holds only the last attempt's bytes;
    - a final failure closes and removes the file;
    - only a completed file counts as finished.
- `log.Fatalf` is modelled as the outcome `Fatal(reason)`. The process ends there, so no deferred call runs afterwards: neither `file.Close` nor `WaitGroup.Done`.

## Model

| member | source | states |
|---|---|---|
| Download.FetchKey | internal/download/worker.go:44-111 | Reference definition of one downloadFile call: MkdirAll, then Create (each fatal on failure), then the retry loop, then the deferred Close on normal return |
| Download.RetryLoop | internal/download/worker.go:62-101 | Reference definition of attempts `attempt`..3: success stops the loop; failure on the third attempt closes, removes and aborts; otherwise seek and truncate (each closing, removing and aborting on failure), then the next attempt on an empty file |
| Download.Worker.DownloadFile | internal/download/worker.go:44-111 | The outcome, the new call history, the request log, the file contents, the open handles and the directories are exactly those of `FetchKey` on the old state; the finished counter moves by one exactly when the run completes |
| Download.Worker.Start | internal/download/worker.go:35-41 | Every key received is handed to downloadFile, in channel order. The outcome, the call history, the requests, the files, the open handles and the directories are those `Drain` gives for the keys waiting in the channel. A normal return drains the closed channel, counts every key as finished and calls WaitGroup.Done once. A fatal abort stops at the key that failed and skips Done |
| Download.Worker.ReceiveAll | internal/download/worker.go:38-40 | The range loop: it receives keys in order and ends as `Drain` of the waiting keys says, with the channel drained on a normal end |
| Download.Worker.DownloadNext | internal/download/worker.go:38-40 | One turn of the range loop: a drained channel leaves everything as it was; otherwise one key is received and downloaded, and `Drain` of the remaining keys from the new state is `Drain` of all of them from the old one (a fatal key ends it) |
| Download.Worker.DownloadCreated | internal/download/worker.go:62-111 | From the created, open file: the retry loop, then on success the counter and the deferred Close; the state is `Settle` of the prepared run |
| Download.Drain | internal/download/worker.go:35-41 | Reference definition of a worker's whole life: `FetchKey` for each received key in turn, each from the state the previous left, stopping at the first fatal outcome |
| Download.DrainStep | internal/download/worker.go:38-40 | Draining from key i is the run of key i followed by draining from key i + 1, unless key i is fatal |
| Download.DrainedFilesExist | internal/download/worker.go:35-41 | After a completed drain every received key has its file at the destination, and no file that existed before is lost |
| Download.Worker.DownloadWithRetries | internal/download/worker.go:62-101 | The loop's effect on the open file, the calls and the requests is exactly `RetryLoop` from attempt 1 on the current contents |
| Download.Worker.AttemptOnce | internal/download/worker.go:64-100 | One loop iteration: it retries exactly when `Retries` holds, after one download, a seek and a truncate leaving the file empty; otherwise its effect is the rest of `RetryLoop` |
| Download.Worker.RecoverOrAbort | internal/download/worker.go:75-100 | After a failed attempt: the third failure closes and removes the file (DownloadFailed); otherwise the seek and the truncate decide between a retry and an abort |
| Download.Worker.Rewind | internal/download/worker.go:86-100 | Seek, then Truncate(0). A failing seek aborts with SeekFailed after Close and Remove. A failing truncate aborts with TruncateFailed after Close and Remove. Both succeeding leave the file empty and open |
| Download.Worker.Abandon | internal/download/worker.go:88-99 | The cleanup after a failed seek or truncate appends Close and Remove to the run and ends it with the file removed |
| Download.Worker.CloseAndRemove | internal/download/worker.go:79-80 | Close then Remove: the handle and the file are gone, nothing else changes |
| Download.Downloader.Download | internal/download/worker.go:64-67 | One request is logged; the file becomes its old contents with the response's positioned writes applied in order; success is the response's |
| Download.PreparedRun | internal/download/worker.go:48-62 | When MkdirAll and Create succeed, the run is those two calls followed by the retry loop (and the final Close), with the loop's outcome and file effect |
| Download.PreparesFirst | internal/download/worker.go:48-59 | MkdirAll of the parent directory comes first, Create second unless MkdirAll failed, neither is called again, and every download comes after both |
| Download.PrepareFailure | internal/download/worker.go:50-58 | No download request is made exactly when MkdirAll or Create failed; such a run aborts and leaves the file untouched |
| Download.Attempts | internal/download/worker.go:62-72 | At most three requests, each for (bucket, key); once prepared, at least one; every request but the last failed; the run completes iff the last request succeeded |
| Download.NoMixing | internal/download/worker.go:86-100 | A completed file holds exactly the last attempt's writes applied to an empty file: bytes of earlier failed attempts never survive |
| Download.FailureRemovesFile | internal/download/worker.go:76-100 | The file is written iff the run completes; a prepared run that aborts removes the file and aborts for a download, seek or truncate failure; the abort is DownloadFailed iff all three attempts failed |
| Download.RetryExhaustion | internal/download/worker.go:76-82 | With a healthy filesystem and three failing downloads, the run makes three requests, removes the file and aborts with DownloadFailed |
| Download.PartialThenFull | internal/download/worker.go:86-100 | A failed attempt that wrote partial bytes followed by a successful one leaves exactly the successful attempt's bytes after two requests |
| Download.RetryAttempts | internal/download/worker.go:62-72 | From attempt `attempt` the loop makes between 1 and 4 - attempt requests, all for the same input; all but the last failed, and it completes iff the last succeeded |
| Download.RetryNoMixing | internal/download/worker.go:69-100 | The loop makes at least one request; a completed loop holds the last attempt's writes over the starting contents if it was the first attempt, over an empty file otherwise |
| Download.NoMixingContinues | internal/download/worker.go:86-100 | A retried attempt passes on what the attempts after it keep: the last writes on an empty file |
| Download.RetryFailure | internal/download/worker.go:76-100 | The loop writes the file iff it completes; otherwise it removes it, for a download, seek or truncate failure; DownloadFailed iff the third attempt failed |
| Download.RetryNoPrepare | internal/download/worker.go:62-101 | The loop starts with a download and never calls MkdirAll or Create, nor aborts for them |
| Download.RetryStops | internal/download/worker.go:69-82 | An attempt after which the loop stops makes exactly one request; the loop completes iff that request succeeded, with its writes applied to the current contents |
| Download.RetryContinues | internal/download/worker.go:86-101 | A retried attempt is a download, a seek and a truncate followed by the next attempt on an empty file |
| Download.FinishRequests | internal/download/worker.go:59 | The deferred Close only appends Close calls after the run's calls and adds no request |
| Files.WriteAt | internal/download/worker.go:64-67 | io.WriterAt semantics: the bytes land at the offset, the bytes before and after keep their values, a gap is zero-filled, and the length grows to cover the write |
| Files.ApplyWritesCovers | internal/download/worker.go:64-67 | After a sequence of writes the file covers its old length and every write's extent |
| Files.WholeWriteFromEmpty | internal/download/worker.go:64-67 | A single write at offset 0 into an empty file gives exactly the written bytes |
| Files.Join | internal/download/worker.go:45 | The local path is the destination, one '/', then the key |
| Files.Dir | internal/download/worker.go:49 | A path without '/' has parent "."; otherwise the parent is everything before the last '/', with no '/' after it |
| Files.DirOfJoin | internal/download/worker.go:45-49 | With the cleaning-free `Join`, the directory given to MkdirAll is a proper prefix of the local path and starts with the destination |
| Files.ApplyWrites | internal/download/worker.go:64-67 | Reference definition of a download's effect on the file: its positioned writes applied in order |
| Files.FileSystem.WriteTo | internal/download/worker.go:64-67 | One positioned write lands in the open file as `WriteAt` says; nothing else changes |
| Files.FileSystem.MkdirAll | internal/download/worker.go:50 | Consumes one verdict; on success the directory exists |
| Files.FileSystem.Create | internal/download/worker.go:55 | Consumes one verdict; succeeds iff the verdict allows, the parent exists and the path is not a directory; the file is then empty and open |
| Files.FileSystem.Seek | internal/download/worker.go:87 | Consumes one verdict and changes no contents |
| Files.FileSystem.Truncate | internal/download/worker.go:94 | Consumes one verdict; on success the file is empty |
| Files.FileSystem.Close | internal/download/worker.go:59 | The handle is released; contents stay |
| Files.FileSystem.Remove | internal/download/worker.go:79-80 | Only a closed file is removed; afterwards it is gone and nothing else changes; its error is ignored by the caller |
| Sync.Counter.Add | internal/download/worker.go:107 | Adds and returns the new value |
| Sync.Counter.Load | internal/download/worker.go:108 | Reads the current value without changing it |
| Sync.WaitGroup.Done | internal/download/worker.go:36 | Decrements the counter by one |
| Sync.KeyChannel.Receive | internal/download/worker.go:38 | Keys come out in the order sent; after close and drain the receive reports no key |
| Sync.KeyChannel.Send | internal/s3/listing.go:36 | Appends the key to what the channel carries, and the sender's counter value at that moment to the record of counts at sends |
| Sync.KeyChannel.Close | internal/s3/listing.go:20 | Closes the channel; nothing sent is lost |
| Listing.ListFiles | internal/s3/listing.go:19-39 | Sends exactly `Emitted(pages)` for the pages answered to (bucket, prefix), adds their number to the total, and closes the channel last, error or not. At the j-th send the total was already old total + j + 1: each key is counted before it is sent |
| Listing.ListPages | internal/s3/listing.go:27-38 | The paging loop sends and counts exactly `Emitted` of the pages, stopping at the first error page; the j-th key sent saw the total at old total + j + 1 |
| Listing.SendKeys | internal/s3/listing.go:34-37 | A page's keys are sent in page order; the total grows by their number, and the j-th send saw it at old total + j + 1, so each key is counted just before it is sent |
| Listing.Paginator.NextPage | internal/s3/listing.go:28 | Returns the next page in the order the service gave them |
| Listing.Paginator.HasMorePages | internal/s3/listing.go:27 | True exactly while some page of the service's answer is still unread |
| Listing.Emitted | internal/s3/listing.go:27-38 | Reference definition of the keys sent: each good page's keys in page and content order, up to the first error |
| Listing.Flatten | internal/s3/listing.go:27-38 | The keys of every good page read so far, page by page: what the loop has sent after n pages |
| Listing.FirstError | internal/s3/listing.go:28-32 | The index of the first error page, with every page before it good |
| Listing.EmittedStopsAtError | internal/s3/listing.go:28-32 | The keys sent are the keys of the good pages before the first error, in order |
| Listing.EmittedAllPages | internal/s3/listing.go:27-38 | Without an error page every page's keys are sent, in page order |
| Listing.EmittedAppend | internal/s3/listing.go:27-38 | Listing good pages then more pages sends the first batch's keys followed by the rest's |
| Listing.EmittedPrefix | internal/s3/listing.go:27-38 | What is sent for the first n pages is a prefix of what is sent for all pages |
| Listing.FirstErrorOfPrefix | internal/s3/listing.go:28-32 | A prefix that contains the first error page has its first error at the same index |
| Listing.FlattenStep | internal/s3/listing.go:34-37 | A good page before the first error adds its keys to those sent so far |
| Listing.PageSent | internal/s3/listing.go:34-37 | Sending a page's keys after those already sent extends the keys and the counts at sends as one run would |
| Listing.ListingStops | internal/s3/listing.go:27-32 | Stopping at the first error or at the end has sent `Emitted(pages)` |
| Listing.EmptyPage | internal/s3/listing.go:34-37 | A page without objects sends nothing |
| Listing.CountsAtSends | internal/s3/listing.go:34-37 | The totals n counted sends observe from `base`: the j-th is base + j + 1 |
| Listing.CountsAtSendsStep | internal/s3/listing.go:35-36 | One more counted send appends the next total |
| Listing.CountsAtSendsAppend | internal/s3/listing.go:34-37 | Two runs of counted sends, the second starting where the first left the total, form one run |
| Region.GetBucketRegion | internal/s3/region.go:16-36 | Error iff the service errs, and then empty region with that error; otherwise a non-empty region that is the constraint, or `us-east-1` for an empty constraint |
| Region.RegionNamesConstraint | internal/s3/region.go:29-33 | On success the region is `us-east-1` iff the constraint is empty or `us-east-1`; any other region equals the constraint |
| Region.OnlyThatBucket | internal/s3/region.go:17-21 | Only the service's answer for the bucket asked about matters |
| Region.EmptyConstraintIsUsEast1 | internal/s3/region.go:29-30 | An empty constraint gives `us-east-1` and no error |
| Region.EuWest1PassesThrough | internal/s3/region.go:31-32 | The constraint `eu-west-1` is returned as the region |
| Region.ErrorPassesThrough | internal/s3/region.go:21-24 | A service error comes back unchanged with an empty region |

## Left out

- Concurrency, channel capacity and blocking:
  - Workers, the lister and main run one at a time.
  - `Sync.KeyChannel.Receive` may only be called when a key is waiting or the channel is closed.
- Download.Worker.Start: requires the channel to be closed before the loop begins. This is the sequential stand-in for "range until closed"; the source's loop instead waits for keys still to come.
- Sync.Counter: `atomic.Int64` is an unbounded integer; 64-bit wrap-around is not modelled because no realistic listing reaches it.
- Sync.WaitGroup: reduced to its counter; `Wait` belongs to main.go, which is not part of this model.
- Files.Join and Files.Dir: `filepath.Join` and `filepath.Dir` without their cleaning rules (`..`, `.`, repeated slashes). A key is appended after one '/'.
- Files.DirOfJoin: holds for the cleaning-free `Join` only. With the real `filepath.Join`, a key with `..` segments (such as `../x`) is cleaned to a path outside the destination; path traversal by object keys is not represented.
- Files.FileSystem.MkdirAll: records only the directory asked for, not its ancestors, and fails only when its verdict says so.
- Files.FileSystem.Remove and Close: modelled as always succeeding. The source ignores both results.
- Files.FileSystem.Seek: the file offset is not tracked. Every write carries its absolute offset, as with io.WriterAt.
- Log output (`log.Printf`, the text of `log.Fatalf`): not modelled. Only the reason of a fatal abort is kept.
- The S3 client, the transfer manager's part size and concurrency (`CreateDownloader`), `context.TODO()`:
  - They are replaced by oracles: `Downloader.respond`, `Listing.Client`, `Region.LocationClient`.
  - CreateDownloader only sets constants and is not part of this model.
- Listing.Paginator: continuation tokens and the per-page requests are abstracted. The service's answer to one listing request is the whole sequence of pages.
- cmd/s3cpbp/main.go and internal/config/config.go are context, not part of this model.
- The Region lemmas other than `Region.GetBucketRegion` state the cases of region_test.go as all-inputs statements; they are proved from the definition of `GetBucketRegion`.
