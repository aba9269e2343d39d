/**
  static_handler.py: documents fetched one by one, indexed in batches of ten, everything given up
  at the first failure; and the bounded download of one file.
 */
module StaticIndexer {
  import opened Options

  newtype byte = x: int | 0 <= x < 0x100

  /** What fetching one URL yields: extracted text, possibly empty, or an error. */
  datatype Fetch = Fetched(text: string) | FetchFailed

  datatype StaticError = FetchError | SourceError | IndexError | NoUrls

  const BATCH: nat := 10

  /** The documents a list of fetches stands for: the texts that are not empty. */
  function Docs(fetches: seq<Fetch>): seq<string> {
    if fetches == [] then []
    else
      var last := fetches[|fetches| - 1];
      Docs(fetches[..|fetches| - 1]) + (if last.Fetched? && last.text != "" then [last.text] else [])
  }

  /** `at` lists the fetches that yielded a text, in order, and `docs` are their whole texts. */
  ghost predicate TextsAt(fetches: seq<Fetch>, docs: seq<string>, at: seq<nat>) {
    && |docs| == |at|
    && (forall k :: 0 <= k < |at| ==> at[k] < |fetches| && fetches[at[k]] == Fetched(docs[k]) && docs[k] != "")
    && (forall j, k :: 0 <= j < k < |at| ==> at[j] < at[k])
    && (forall i :: 0 <= i < |fetches| && fetches[i].Fetched? && fetches[i].text != "" ==> i in at)
  }

  lemma NoTexts()
    ensures TextsAt([], Docs([]), [])
  {
  }

  lemma SkippedFetch(fetches: seq<Fetch>, docs: seq<string>, at: seq<nat>, last: Fetch)
    requires TextsAt(fetches, docs, at) && (last.FetchFailed? || last.text == "")
    ensures TextsAt(fetches + [last], docs, at)
  {
  }

  lemma TakenFetch(fetches: seq<Fetch>, docs: seq<string>, at: seq<nat>, text: string)
    requires TextsAt(fetches, docs, at) && text != ""
    ensures TextsAt(fetches + [Fetched(text)], docs + [text], at + [|fetches|])
  {
    var more := at + [|fetches|];
    assert more[|at|] == |fetches|;
    forall i | 0 <= i < |fetches| && fetches[i].Fetched? && fetches[i].text != "" ensures i in more {
      assert i in at;
    }
  }

  /** The documents are the whole texts that were fetched and are not empty, each once and in order. */
  lemma {:induction false} DocsAreTexts(fetches: seq<Fetch>)
    ensures exists at: seq<nat> :: TextsAt(fetches, Docs(fetches), at)
  {
    if fetches == [] {
      NoTexts();
    } else {
      hide TextsAt, Docs;
      var init, last := fetches[..|fetches| - 1], fetches[|fetches| - 1];
      assert fetches == init + [last];
      DocsAreTexts(init);
      var at: seq<nat> :| TextsAt(init, Docs(init), at);
      OneMoreFetch(init, at, last);
    }
  }

  lemma OneMoreFetch(fetches: seq<Fetch>, at: seq<nat>, last: Fetch)
    requires TextsAt(fetches, Docs(fetches), at)
    ensures var taken := last.Fetched? && last.text != "";
            TextsAt(fetches + [last], Docs(fetches + [last]), at + if taken then [|fetches|] else [])
  {
    hide TextsAt;
    assert (fetches + [last])[..|fetches|] == fetches;
    if last.Fetched? && last.text != "" {
      TakenFetch(fetches, Docs(fetches), at, last.text);
    } else {
      SkippedFetch(fetches, Docs(fetches), at, last);
      assert Docs(fetches) + [] == Docs(fetches) && at + [] == at;
    }
  }

  function Flatten<T>(parts: seq<seq<T>>): seq<T> {
    if parts == [] then [] else Flatten(parts[..|parts| - 1]) + parts[|parts| - 1]
  }

  lemma FlattenOneMore<T>(parts: seq<seq<T>>, part: seq<T>)
    ensures Flatten(parts + [part]) == Flatten(parts) + part
  {
    assert (parts + [part])[..|parts|] == parts;
  }

  lemma {:induction false} DocsPrefix(fetches: seq<Fetch>, k: nat)
    requires k <= |fetches|
    ensures Docs(fetches[..k]) <= Docs(fetches)
    decreases |fetches|
  {
    if k < |fetches| {
      var n := |fetches| - 1;
      DocsPrefix(fetches[..n], k);
      assert fetches[..n][..k] == fetches[..k];
    } else {
      assert fetches[..k] == fetches;
    }
  }

  lemma {:induction false} FullBatchesLength(batches: seq<seq<string>>)
    requires forall k :: 0 <= k < |batches| ==> |batches[k]| == BATCH
    ensures |Flatten(batches)| == BATCH * |batches|
  {
    if batches != [] {
      FullBatchesLength(batches[..|batches| - 1]);
    }
  }

  /** The fetches before k succeed and fetch k fails. */
  predicate FirstFailure(fetches: seq<Fetch>, k: nat) {
    k < |fetches| && fetches[k].FetchFailed? && forall j :: 0 <= j < k ==> fetches[j].Fetched?
  }

  lemma LeftInHand(sent: seq<string>, documents: seq<string>, n: nat)
    requires |sent| == BATCH * n && |documents| < BATCH
    ensures (sent + documents)[..BATCH * (|sent + documents| / BATCH)] == sent
  {
    assert |sent + documents| / BATCH == n;
  }

  /** The first n answers of the engine are good. */
  ghost predicate Answered(answers: nat -> bool, n: nat) {
    forall k :: 0 <= k < n ==> answers(k)
  }

  ghost predicate Batches(submitted: seq<seq<string>>, size: nat) {
    forall k :: 0 <= k < |submitted| ==> size <= |submitted[k]| <= 10
  }

  ghost predicate FullBut(submitted: seq<seq<string>>) {
    forall k :: 0 <= k < |submitted| - 1 ==> |submitted[k]| == 10
  }

  ghost predicate AllFetched(fetches: seq<Fetch>) {
    forall j :: 0 <= j < |fetches| ==> fetches[j].Fetched?
  }

  /** What a run may have sent and recorded. */
  ghost predicate Verdict(fetches: seq<Fetch>, answers: nat -> bool, submitted: seq<seq<string>>,
                          errors: seq<StaticError>) {
    // the documents are sent in order, in batches of ten and one last smaller one
    && Flatten(submitted) <= Docs(fetches)
    && Batches(submitted, 1) && FullBut(submitted)
    // a refused call is the last
    && Answered(answers, |submitted| - (if submitted == [] then 0 else 1))
    // no error exactly when every fetch succeeds and every call is answered; then everything is sent
    && (errors == [] <==> AllFetched(fetches) && Answered(answers, |submitted|))
    && (errors == [] ==> Flatten(submitted) == Docs(fetches))
    // a fetch that fails after well-answered calls leaves exactly the full batches of what came before
    && (Answered(answers, |submitted|) ==>
          forall k :: 0 <= k < |fetches| && FirstFailure(fetches, k) ==>
            var before := Docs(fetches[..k]);
            Flatten(submitted) == before[..10 * (|before| / 10)] && errors == [FetchError, SourceError])
    // a refused full batch reads as a failed fetch; a refused last one is reported once
    && (!Answered(answers, |submitted|) ==>
          errors == if |submitted[|submitted| - 1]| == 10 then [FetchError, SourceError] else [IndexError])
  }

  /** Between two fetches: full batches answered, the rest in hand. */
  ghost predicate InHand(fetches: seq<Fetch>, i: nat, answers: nat -> bool, submitted: seq<seq<string>>,
                         documents: seq<string>) {
    && i <= |fetches| && (forall j :: 0 <= j < i ==> fetches[j].Fetched?)
    && Answered(answers, |submitted|) && Batches(submitted, BATCH)
    && |documents| < BATCH
    && Flatten(submitted) + documents == Docs(fetches[..i])
  }

  lemma FailedFetchVerdict(fetches: seq<Fetch>, i: nat, answers: nat -> bool, submitted: seq<seq<string>>,
                           documents: seq<string>)
    requires InHand(fetches, i, answers, submitted, documents) && i < |fetches| && fetches[i].FetchFailed?
    ensures Verdict(fetches, answers, submitted, [FetchError, SourceError])
  {
    DocsPrefix(fetches, i);
    FullBatchesLength(submitted);
    LeftInHand(Flatten(submitted), documents, |submitted|);
    forall k | 0 <= k < |fetches| && FirstFailure(fetches, k) ensures k == i {
    }
  }

  /** A refused call ends the run. */
  lemma RefusedVerdict(fetches: seq<Fetch>, i: nat, answers: nat -> bool, submitted: seq<seq<string>>,
                       batch: seq<string>,
                       errors: seq<StaticError>)
    requires i <= |fetches| && !answers(|submitted|)
    requires errors == if |batch| == 10 then [FetchError, SourceError] else [IndexError]
    requires Answered(answers, |submitted|) && Batches(submitted, BATCH) && 1 <= |batch| <= BATCH
    requires Flatten(submitted) + batch == Docs(fetches[..i])
    ensures Verdict(fetches, answers, submitted + [batch], errors)
  {
    DocsPrefix(fetches, i);
    FlattenOneMore(submitted, batch);
    assert !Answered(answers, |submitted + [batch]|);
  }

  /** The run that got through: everything is sent. */
  lemma FinishedVerdict(fetches: seq<Fetch>, answers: nat -> bool, submitted: seq<seq<string>>)
    requires AllFetched(fetches) && Answered(answers, |submitted|)
    requires Batches(submitted, 1) && FullBut(submitted)
    requires Flatten(submitted) == Docs(fetches)
    ensures Verdict(fetches, answers, submitted, [])
  {
  }

  lemma DocsOneMore(fetches: seq<Fetch>, i: nat)
    requires i < |fetches| && fetches[i].Fetched?
    ensures Docs(fetches[..i + 1]) == Docs(fetches[..i]) + (if fetches[i].text != "" then [fetches[i].text] else [])
  {
    assert fetches[..i + 1][..i] == fetches[..i];
  }

  lemma NothingInHand(fetches: seq<Fetch>, answers: nat -> bool)
    ensures InHand(fetches, 0, answers, [], [])
  {
  }

  /** An empty text changes nothing. */
  lemma EmptyFetch(fetches: seq<Fetch>, i: nat, answers: nat -> bool, submitted: seq<seq<string>>,
                   documents: seq<string>)
    requires InHand(fetches, i, answers, submitted, documents) && i < |fetches| && fetches[i] == Fetched("")
    ensures InHand(fetches, i + 1, answers, submitted, documents)
  {
    DocsOneMore(fetches, i);
    hide Docs, Flatten;
  }

  /** One more text in hand. */
  lemma TextFetch(fetches: seq<Fetch>, i: nat, answers: nat -> bool, submitted: seq<seq<string>>,
                  documents: seq<string>)
    requires InHand(fetches, i, answers, submitted, documents)
    requires i < |fetches| && fetches[i].Fetched? && fetches[i].text != ""
    ensures var more := documents + [fetches[i].text];
            && Flatten(submitted) + more == Docs(fetches[..i + 1])
            && (|more| < BATCH ==> InHand(fetches, i + 1, answers, submitted, more))
  {
    DocsOneMore(fetches, i);
    hide Docs, Flatten;
    assert Flatten(submitted) + documents + [fetches[i].text] == Flatten(submitted) + (documents + [fetches[i].text]);
  }

  /** One more full batch sent and answered. */
  lemma BatchSent(fetches: seq<Fetch>, i: nat, answers: nat -> bool, submitted: seq<seq<string>>, batch: seq<string>)
    requires i <= |fetches| && (forall j :: 0 <= j < i ==> fetches[j].Fetched?)
    requires Answered(answers, |submitted|) && Batches(submitted, BATCH) && |batch| == BATCH && answers(|submitted|)
    requires Flatten(submitted) + batch == Docs(fetches[..i])
    ensures InHand(fetches, i, answers, submitted + [batch], [])
  {
    FlattenOneMore(submitted, batch);
    OneMoreBatch(answers, submitted, batch);
    hide Docs, Flatten, Answered, Batches;
    var sent := Flatten(submitted + [batch]);
    assert sent + [] == sent;
  }

  lemma OneMoreBatch(answers: nat -> bool, submitted: seq<seq<string>>, batch: seq<string>)
    requires Answered(answers, |submitted|) && Batches(submitted, BATCH) && |batch| == BATCH && answers(|submitted|)
    ensures Answered(answers, |submitted + [batch]|) && Batches(submitted + [batch], BATCH)
  {
  }

  /** A tenth text is sent at once: the loop goes on with nothing in hand, or the run ends. */
  lemma TenthFetch(fetches: seq<Fetch>, i: nat, answers: nat -> bool, submitted: seq<seq<string>>,
                   documents: seq<string>)
    requires InHand(fetches, i, answers, submitted, documents)
    requires i < |fetches| && fetches[i].Fetched? && fetches[i].text != ""
    requires |documents + [fetches[i].text]| >= BATCH
    ensures var sent := submitted + [documents + [fetches[i].text]];
            if answers(|submitted|) then InHand(fetches, i + 1, answers, sent, [])
            else Verdict(fetches, answers, sent, [FetchError, SourceError])
  {
    TextFetch(fetches, i, answers, submitted, documents);
    hide Docs, Flatten;
    if answers(|submitted|) {
      BatchSent(fetches, i + 1, answers, submitted, documents + [fetches[i].text]);
    } else {
      RefusedVerdict(fetches, i + 1, answers, submitted, documents + [fetches[i].text], [FetchError, SourceError]);
    }
  }

  /** After the last fetch whatever is in hand is sent. */
  lemma Remainder(fetches: seq<Fetch>, answers: nat -> bool, submitted: seq<seq<string>>, documents: seq<string>)
    requires InHand(fetches, |fetches|, answers, submitted, documents)
    ensures documents == [] ==> Verdict(fetches, answers, submitted, [])
    ensures documents != [] ==>
              Verdict(fetches, answers, submitted + [documents], if answers(|submitted|) then [] else [IndexError])
  {
    assert fetches[..|fetches|] == fetches;
    if documents == [] {
      assert Flatten(submitted) + [] == Flatten(submitted);
      FinishedVerdict(fetches, answers, submitted);
    } else if answers(|submitted|) {
      FlattenOneMore(submitted, documents);
      FinishedVerdict(fetches, answers, submitted + [documents]);
    } else {
      RefusedVerdict(fetches, |fetches|, answers, submitted, documents, [IndexError]);
    }
  }

  class StaticHandler {
    /** The engine's answer to the n-th index call. */
    const answers: nat -> bool
    var errors: seq<StaticError>
    /** The batches sent so far, the last one possibly refused. */
    var submitted: seq<seq<string>>

    constructor (answers: nat -> bool)
      ensures this.answers == answers && errors == [] && submitted == []
    {
      this.answers := answers;
      errors, submitted := [], [];
    }

    method IndexDocuments(documents: seq<string>) returns (ok: bool)
      modifies this`submitted
      ensures submitted == old(submitted) + [documents]
      ensures ok == answers(|old(submitted)|)
    {
      ok := answers(|submitted|);
      submitted := submitted + [documents];
    }

    /** One text more in hand; the tenth sends the batch. */
    method AddDocument(text: string, documents: seq<string>, ghost fetches: seq<Fetch>, ghost i: nat)
      returns (ok: bool, documents': seq<string>)
      requires InHand(fetches, i, answers, submitted, documents)
      requires i < |fetches| && fetches[i] == Fetched(text) && text != ""
      modifies this`submitted
      ensures ok ==> InHand(fetches, i + 1, answers, submitted, documents')
      ensures !ok ==> Verdict(fetches, answers, submitted, [FetchError, SourceError])
    {
      hide *;
      TextFetch(fetches, i, answers, submitted, documents);
      ok, documents' := true, documents + [text];
      if |documents'| >= BATCH {
        TenthFetch(fetches, i, answers, submitted, documents);
        ok := IndexDocuments(documents');
        documents' := [];
      }
    }

    /** update_index over the configured list; None when the configuration has no list. */
    method UpdateIndex(urls: Option<seq<Fetch>>) returns (result: seq<StaticError>)
      requires submitted == []
      modifies this
      ensures urls.None? ==> result == [NoUrls] && errors == [] && submitted == []
      ensures urls.Some? ==> result == errors && Verdict(urls.value, answers, submitted, errors)
    {
      hide *;
      errors := [];
      if urls.None? {
        return [NoUrls];
      }
      var fetches := urls.value;
      var documents: seq<string> := [];
      NothingInHand(fetches, answers);
      for i := 0 to |fetches|
        invariant errors == []
        invariant InHand(fetches, i, answers, submitted, documents)
      {
        var failed := fetches[i].FetchFailed?;
        if failed {
          FailedFetchVerdict(fetches, i, answers, submitted, documents);
        } else if fetches[i].text != "" {
          var ok;
          ok, documents := AddDocument(fetches[i].text, documents, fetches, i);
          failed := !ok;
        } else {
          EmptyFetch(fetches, i, answers, submitted, documents);
        }
        if failed {
          errors := errors + [FetchError];
          errors := errors + [SourceError];
          assert errors == [FetchError, SourceError];
          return errors;
        }
      }
      Remainder(fetches, answers, submitted, documents);
      if |documents| > 0 {
        var ok := IndexDocuments(documents);
        if !ok {
          errors := errors + [IndexError];
          assert errors == [IndexError];
        }
      }
      result := errors;
    }
  }

  /** The download loop of _fetch_content_from_url: `declared` is the content-length header. */
  method DownloadBounded(declared: Option<nat>, chunks: seq<seq<byte>>,
                         maxSize: nat) returns (content: Option<seq<byte>>)
    ensures content.Some? <==> (declared.Some? ==> declared.value <= maxSize) && |Flatten(chunks)| <= maxSize
    ensures content.Some? ==> content.value == Flatten(chunks) && |content.value| <= maxSize
  {
    if declared.Some? && declared.value > maxSize {
      return None;
    }
    var kept: seq<seq<byte>>, totalSize := [], 0;
    for i := 0 to |chunks|
      invariant Flatten(kept) == Flatten(chunks[..i])
      invariant totalSize == |Flatten(chunks[..i])| <= maxSize
    {
      assert chunks[..i + 1][..i] == chunks[..i];
      if chunks[i] != [] {
        totalSize := totalSize + |chunks[i]|;
        if totalSize > maxSize {
          FlattenGrows(chunks, i + 1);
          return None;
        }
        FlattenOneMore(kept, chunks[i]);
        kept := kept + [chunks[i]];
      }
    }
    assert chunks[..|chunks|] == chunks;
    content := Some(Flatten(kept));
  }

  lemma {:induction false} FlattenGrows<T>(parts: seq<seq<T>>, k: nat)
    requires k <= |parts|
    ensures |Flatten(parts[..k])| <= |Flatten(parts)|
    decreases |parts|
  {
    if k < |parts| {
      var n := |parts| - 1;
      FlattenGrows(parts[..n], k);
      assert parts[..n][..k] == parts[..k];
    } else {
      assert parts[..k] == parts;
    }
  }
}
