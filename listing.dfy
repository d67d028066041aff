/** The paginated lister of internal/s3/listing.go: walk the pages that
    ListObjectsV2 returns for one bucket and prefix, count and send every key,
    stop at the first page error, and close the output channel on the way
    out. `Emitted` is the reference definition of the keys sent; `Flatten`
    is an independent one for a listing without errors. */
module Listing {
  import opened Sync

  /** The ListObjectsV2 request the paginator is built from. */
  datatype ListObjectsInput = ListObjectsInput(bucket: string, prefix: string)

  /** One result of the paginator's NextPage: the keys of a page's contents,
      or an error. */
  datatype PageResult = Page(keys: seq<string>) | PageError(message: string)

  /** What the service answers to successive NextPage calls for a request. */
  type Client = ListObjectsInput -> seq<PageResult>

  /** The paginator over one request: the results it will yield and how many
      it has yielded so far. */
  class Paginator {
    const input: ListObjectsInput
    const pages: seq<PageResult>
    var next: nat

    constructor (client: Client, input: ListObjectsInput)
      ensures this.input == input && pages == client(input) && next == 0
    {
      this.input := input;
      pages := client(input);
      next := 0;
    }

    function HasMorePages(): bool
      reads this
    {
      next < |pages|
    }

    method NextPage() returns (page: PageResult)
      requires next < |pages|
      modifies this
      ensures page == pages[old(next)] && next == old(next) + 1
    {
      page := pages[next];
      next := next + 1;
    }
  }

  /** Every result is a page: no error was returned. */
  predicate AllPages(pages: seq<PageResult>)
  {
    forall i :: 0 <= i < |pages| ==> pages[i].Page?
  }

  /** The keys the lister sends for the results `pages`: the keys of each
      page in page order and content order, up to the first error. */
  function Emitted(pages: seq<PageResult>): seq<string>
  {
    if pages == [] then []
    else match pages[0]
      case PageError(_) => []
      case Page(keys) => keys + Emitted(pages[1..])
  }

  /** The keys of all pages, concatenated from the last page backwards; an
      error contributes nothing. */
  function Flatten(pages: seq<PageResult>): seq<string>
  {
    if pages == [] then []
    else
      var last := pages[|pages| - 1];
      Flatten(pages[..|pages| - 1]) + (if last.Page? then last.keys else [])
  }

  /** Index of the first error, or |pages| when there is none. */
  function FirstError(pages: seq<PageResult>): (j: nat)
    ensures j <= |pages|
    ensures j < |pages| ==> pages[j].PageError?
    ensures forall i :: 0 <= i < j ==> pages[i].Page?
  {
    if pages == [] then 0
    else if pages[0].PageError? then 0
    else 1 + FirstError(pages[1..])
  }

  /** Results without an error contribute all their keys, whatever follows. */
  lemma {:induction false} EmittedAppend(a: seq<PageResult>, b: seq<PageResult>)
    requires AllPages(a)
    ensures Emitted(a + b) == Emitted(a) + Emitted(b)
  {
    if a == [] {
      assert a + b == b;
    } else {
      assert (a + b)[1..] == a[1..] + b;
      assert AllPages(a[1..]) by {
        forall i | 0 <= i < |a[1..]|
          ensures a[1..][i].Page?
        {
          assert a[1..][i] == a[i + 1];
        }
      }
      EmittedAppend(a[1..], b);
      assert a[0].Page?;
    }
  }

  /** Without errors the two definitions agree: the lister sends the
      concatenation of all pages' contents. */
  lemma {:induction false} EmittedAllPages(pages: seq<PageResult>)
    requires AllPages(pages)
    ensures Emitted(pages) == Flatten(pages)
  {
    if pages != [] {
      var init := pages[..|pages| - 1];
      var last := pages[|pages| - 1];
      assert pages == init + [last];
      assert AllPages(init) by {
        forall i | 0 <= i < |init|
          ensures init[i].Page?
        {
          assert init[i] == pages[i];
        }
      }
      EmittedAppend(init, [last]);
      EmittedAllPages(init);
      assert [last][1..] == [];
      assert Emitted([last]) == last.keys + [];
    }
  }

  /** At an error the listing stops: the keys sent are exactly those of the
      pages before the first error, and nothing of the failing page or of
      the pages after it. */
  lemma EmittedStopsAtError(pages: seq<PageResult>)
    ensures Emitted(pages) == Flatten(pages[..FirstError(pages)])
    ensures Emitted(pages) == Emitted(pages[..FirstError(pages)])
  {
    var j := FirstError(pages);
    var head := pages[..j];
    assert AllPages(head) by {
      forall i | 0 <= i < |head|
        ensures head[i].Page?
      {
        assert head[i] == pages[i];
      }
    }
    assert pages == head + pages[j..];
    EmittedAppend(head, pages[j..]);
    EmittedAllPages(head);
    if j < |pages| {
      assert pages[j..][0] == pages[j];
    }
  }

  /** The keys sent for a prefix of the results are a prefix of the keys
      sent for all of them. */
  lemma EmittedPrefix(pages: seq<PageResult>, n: nat)
    requires n <= |pages|
    ensures var e := Emitted(pages[..n]);
      |e| <= |Emitted(pages)| && e == Emitted(pages)[..|e|]
  {
    var j := FirstError(pages);
    if n <= j {
      var head := pages[..n];
      assert AllPages(head) by {
        forall i | 0 <= i < |head|
          ensures head[i].Page?
        {
          assert head[i] == pages[i];
        }
      }
      assert pages == head + pages[n..];
      EmittedAppend(head, pages[n..]);
    } else {
      EmittedStopsAtError(pages);
      EmittedStopsAtError(pages[..n]);
      assert FirstError(pages[..n]) == j by {
        FirstErrorOfPrefix(pages, n);
      }
      assert pages[..n][..j] == pages[..j];
    }
  }

  /** A prefix that reaches past the first error has the same first error. */
  lemma {:induction false} FirstErrorOfPrefix(pages: seq<PageResult>, n: nat)
    requires FirstError(pages) < n <= |pages|
    ensures FirstError(pages[..n]) == FirstError(pages)
  {
    if pages[0].Page? {
      assert pages[..n][1..] == pages[1..][..n - 1];
      FirstErrorOfPrefix(pages[1..], n - 1);
    }
  }

  /** A single page without contents sends no key. */
  lemma EmptyPage()
    ensures Emitted([Page([])]) == []
  {
    assert [Page([])][1..] == [];
  }

  // ----- counting before sending -----

  /** The counter values a run of `n` sends observes when every send is
      preceded by its own increment of a counter that started at `base`:
      the j-th send sees the key it carries already counted. */
  function CountsAtSends(base: int, n: nat): (cs: seq<int>)
    ensures |cs| == n
    ensures forall j :: 0 <= j < n ==> cs[j] == base + j + 1
  {
    seq(n, j => base + j + 1)
  }

  /** One more counted send extends the observed values by one. */
  lemma CountsAtSendsStep(base: int, n: nat)
    ensures CountsAtSends(base, n + 1) == CountsAtSends(base, n) + [base + n + 1]
  {
    assert CountsAtSends(base, n + 1)[..n] == CountsAtSends(base, n);
  }

  /** A run of m counted sends followed by a run of n, the second starting
      where the first left the counter, is one run of m + n. */
  lemma CountsAtSendsAppend(base: int, m: nat, n: nat)
    ensures CountsAtSends(base, m) + CountsAtSends(base + m, n) == CountsAtSends(base, m + n)
  {
    var whole := CountsAtSends(base, m + n);
    assert whole[..m] == CountsAtSends(base, m);
    assert whole[m..] == CountsAtSends(base + m, n);
    assert whole == whole[..m] + whole[m..];
  }

  /** ListFiles: walk the pages for exactly `bucket` and `prefix`; for each
      key of a page increment `totalFiles` and then send the key; on a page
      error stop; close the channel (deferred) on every way out. */
  method ListFiles(client: Client, bucket: string, prefix: string,
                   foundFilesChan: KeyChannel, totalFiles: Counter)
    requires foundFilesChan.Valid() && !foundFilesChan.closed
    modifies foundFilesChan, totalFiles
    ensures var emitted := Emitted(client(ListObjectsInput(bucket, prefix)));
      && foundFilesChan.sent == old(foundFilesChan.sent) + emitted
      && totalFiles.value == old(totalFiles.value) + |emitted|
      && foundFilesChan.countsAtSend
         == old(foundFilesChan.countsAtSend) + CountsAtSends(old(totalFiles.value), |emitted|)
    ensures foundFilesChan.Valid() && foundFilesChan.closed
    ensures foundFilesChan.received == old(foundFilesChan.received)
  {
    var paginator := new Paginator(client, ListObjectsInput(bucket, prefix));
    ListPages(paginator, foundFilesChan, totalFiles);
    foundFilesChan.Close();  // deferred close(foundFilesChan)
  }

  /** The `for paginator.HasMorePages()` loop: read pages in order, send
      each page's keys, and return at the first error. */
  method ListPages(paginator: Paginator, foundFilesChan: KeyChannel, totalFiles: Counter)
    requires paginator.next == 0
    requires foundFilesChan.Valid() && !foundFilesChan.closed
    modifies paginator, foundFilesChan, totalFiles
    ensures var emitted := Emitted(paginator.pages);
      && foundFilesChan.sent == old(foundFilesChan.sent) + emitted
      && totalFiles.value == old(totalFiles.value) + |emitted|
      && foundFilesChan.countsAtSend
         == old(foundFilesChan.countsAtSend) + CountsAtSends(old(totalFiles.value), |emitted|)
    ensures foundFilesChan.Valid() && !foundFilesChan.closed
    ensures foundFilesChan.received == old(foundFilesChan.received)
  {
    ghost var pages := paginator.pages;
    ghost var total0 := totalFiles.value;
    ghost var sent0, counts0 := foundFilesChan.sent, foundFilesChan.countsAtSend;
    ghost var failed := false;
    ghost var emitted: seq<string> := [];
    while paginator.HasMorePages()
      invariant paginator.next <= FirstError(pages)
      invariant emitted == Flatten(pages[..paginator.next])
      invariant foundFilesChan.Valid() && !foundFilesChan.closed
      invariant foundFilesChan.sent == sent0 + emitted
      invariant foundFilesChan.received == old(foundFilesChan.received)
      invariant totalFiles.value == total0 + |emitted|
      invariant foundFilesChan.countsAtSend == counts0 + CountsAtSends(total0, |emitted|)
      invariant !failed
      decreases |pages| - paginator.next
    {
      ghost var n := paginator.next;
      var page := paginator.NextPage();
      if page.PageError? {
        // log.Printf of the error, then return
        ListingStops(pages, n);
        failed := true;
        break;
      }
      SendKeys(page.keys, foundFilesChan, totalFiles);
      PageSent(sent0, counts0, total0, emitted, page.keys);
      FlattenStep(pages, n);
      emitted := emitted + page.keys;
    }
    if !failed {
      ListingStops(pages, paginator.next);
    }
  }

  /** Sending one more page's keys after `emitted` leaves the channel and the
      recorded counter values as if `emitted + keys` had been sent at once. */
  lemma PageSent(sent0: seq<string>, counts0: seq<int>, total0: int, emitted: seq<string>, keys: seq<string>)
    ensures sent0 + emitted + keys == sent0 + (emitted + keys)
    ensures counts0 + CountsAtSends(total0, |emitted|) + CountsAtSends(total0 + |emitted|, |keys|)
         == counts0 + CountsAtSends(total0, |emitted + keys|)
  {
    CountsAtSendsAppend(total0, |emitted|, |keys|);
    assert counts0 + CountsAtSends(total0, |emitted|) + CountsAtSends(total0 + |emitted|, |keys|)
        == counts0 + (CountsAtSends(total0, |emitted|) + CountsAtSends(total0 + |emitted|, |keys|));
  }

  /** Reading a page that is not an error extends the keys sent by that
      page's keys, and the first error is still ahead. */
  lemma FlattenStep(pages: seq<PageResult>, n: nat)
    requires n < |pages| && n <= FirstError(pages) && pages[n].Page?
    ensures Flatten(pages[..n + 1]) == Flatten(pages[..n]) + pages[n].keys
    ensures n + 1 <= FirstError(pages)
  {
    assert pages[..n + 1][..n] == pages[..n];
  }

  /** Where the lister stops, at the end of the results or at an error
      before which every result was a page, it has sent what `Emitted`
      says. */
  lemma ListingStops(pages: seq<PageResult>, n: nat)
    requires n <= FirstError(pages)
    requires n == |pages| || pages[n].PageError?
    ensures Emitted(pages) == Flatten(pages[..n])
  {
    EmittedStopsAtError(pages);
  }

  /** The inner loop over a page's contents: for each key, increment the
      counter, then send the key. */
  method SendKeys(keys: seq<string>, foundFilesChan: KeyChannel, totalFiles: Counter)
    requires foundFilesChan.Valid() && !foundFilesChan.closed
    modifies foundFilesChan, totalFiles
    ensures foundFilesChan.Valid() && !foundFilesChan.closed
    ensures foundFilesChan.sent == old(foundFilesChan.sent) + keys
    ensures foundFilesChan.received == old(foundFilesChan.received)
    ensures totalFiles.value == old(totalFiles.value) + |keys|
    ensures foundFilesChan.countsAtSend
         == old(foundFilesChan.countsAtSend) + CountsAtSends(old(totalFiles.value), |keys|)
  {
    ghost var sent0, counts0, total0 := foundFilesChan.sent, foundFilesChan.countsAtSend, totalFiles.value;
    assert keys[..0] == [] && CountsAtSends(total0, 0) == [];
    var i := 0;
    while i < |keys|
      invariant 0 <= i <= |keys|
      invariant foundFilesChan.Valid() && !foundFilesChan.closed
      invariant foundFilesChan.sent == sent0 + keys[..i]
      invariant foundFilesChan.received == old(foundFilesChan.received)
      invariant totalFiles.value == total0 + i
      invariant foundFilesChan.countsAtSend == counts0 + CountsAtSends(total0, i)
    {
      var _ := totalFiles.Add(1);
      foundFilesChan.Send(keys[i], totalFiles.value);
      assert keys[..i + 1] == keys[..i] + [keys[i]];
      assert sent0 + keys[..i] + [keys[i]] == sent0 + (keys[..i] + [keys[i]]);
      CountsAtSendsStep(total0, i);
      assert counts0 + CountsAtSends(total0, i) + [total0 + i + 1]
          == counts0 + (CountsAtSends(total0, i) + [total0 + i + 1]);
      i := i + 1;
    }
    assert keys[..i] == keys;
  }
}
