/** Fetching one arrival date from the government price API, page by page:
    pages of up to 1000 records are requested at growing offsets, a failed
    request is retried up to three attempts in all, and the fetch ends on an
    empty page, a short page, or when the attempts for one page are used up.
    The network is replaced by the sequence of answers the API gives, one per
    request, in order. */
module MandiFetch {
  import opened MandiRecords

  /** Records per page (the `limit` request parameter). */
  const PageLimit: nat := 1000

  /** Attempts per page before giving up (`max_retries`). */
  const MaxAttempts: nat := 3

  /** The answer to one request: an exception (HTTP error, timeout, bad JSON)
      or the `records` list of the response. */
  datatype Answer = Failed | Page(records: seq<RawRecord>)

  /** Why the fetch stopped. `AnswersExhausted` only arises because the model
      has finitely many answers; the source keeps asking. */
  datatype Stop = EmptyPage | ShortPage | AttemptsExhausted | AnswersExhausted

  /** What a fetch returns (`records`) and what it did: the offset sent with
      each request, in order, and why it stopped. */
  datatype Fetched = Fetched(records: seq<RawRecord>, offsets: seq<nat>, stop: Stop)

  /** The records carried by a run of answers, in order. */
  function Collected(answers: seq<Answer>): seq<RawRecord>
    decreases |answers|
  {
    if |answers| == 0 then []
    else (if answers[0].Page? then answers[0].records else []) + Collected(answers[1..])
  }

  /** Number of pages among a run of answers. */
  function PageCount(answers: seq<Answer>): nat
    decreases |answers|
  {
    if |answers| == 0 then 0
    else (if answers[0].Page? then 1 else 0) + PageCount(answers[1..])
  }

  /** The request loop from a given offset, with `attempt` failures already
      spent on the current page. */
  function FetchFrom(answers: seq<Answer>, offset: nat, attempt: nat): (r: Fetched)
    requires attempt < MaxAttempts
    ensures |r.offsets| <= |answers|
    ensures |answers| > 0 ==> |r.offsets| >= 1
    decreases |answers|
  {
    if |answers| == 0 then Fetched([], [], AnswersExhausted)
    else
      match answers[0]
      case Failed =>
        if attempt == MaxAttempts - 1 then Fetched([], [offset], AttemptsExhausted)
        else
          var rest := FetchFrom(answers[1..], offset, attempt + 1);
          rest.(offsets := [offset] + rest.offsets)
      case Page(batch) =>
        if |batch| == 0 then Fetched([], [offset], EmptyPage)
        else if |batch| < PageLimit then Fetched(batch, [offset], ShortPage)
        else
          var rest := FetchFrom(answers[1..], offset + PageLimit, 0);
          Fetched(batch + rest.records, [offset] + rest.offsets, rest.stop)
  }

  /** `_fetch_api_data_for_date`: start at offset 0 with no failures. */
  function FetchForDate(answers: seq<Answer>): Fetched {
    FetchFrom(answers, 0, 0)
  }

  /** The fetch returns exactly the records of the pages it received, in
      order: nothing is dropped or repeated. */
  lemma {:induction false} FetchCollects(answers: seq<Answer>, offset: nat, attempt: nat)
    requires attempt < MaxAttempts
    ensures var r := FetchFrom(answers, offset, attempt);
            r.records == Collected(answers[..|r.offsets|])
    decreases |answers|
  {
    if |answers| > 0 {
      var r := FetchFrom(answers, offset, attempt);
      var n := |r.offsets|;
      assert answers[..n][1..] == answers[1..][..n - 1];
      if answers[0].Failed? && attempt < MaxAttempts - 1 {
        FetchCollects(answers[1..], offset, attempt + 1);
      } else if answers[0].Page? && |answers[0].records| >= PageLimit {
        FetchCollects(answers[1..], offset + PageLimit, 0);
      } else {
        assert answers[..n][1..] == [];
      }
    }
  }

  /** Request j asks for the page after the pages received before it. */
  lemma {:induction false} FetchOffsets(answers: seq<Answer>, offset: nat, attempt: nat)
    requires attempt < MaxAttempts
    ensures var r := FetchFrom(answers, offset, attempt);
            forall j :: 0 <= j < |r.offsets| ==> r.offsets[j] == offset + PageLimit * PageCount(answers[..j])
    decreases |answers|
  {
    if |answers| > 0 {
      var r := FetchFrom(answers, offset, attempt);
      if answers[0].Failed? && attempt < MaxAttempts - 1 {
        FetchOffsets(answers[1..], offset, attempt + 1);
      } else if answers[0].Page? && |answers[0].records| >= PageLimit {
        FetchOffsets(answers[1..], offset + PageLimit, 0);
      }
      forall j | 0 <= j < |r.offsets|
        ensures r.offsets[j] == offset + PageLimit * PageCount(answers[..j])
      {
        if j > 0 {
          assert answers[..j][1..] == answers[1..][..j - 1];
        }
      }
    }
  }

  /** The fetch goes on past a request only after a failure with attempts
      left or a full page, and stops for the reason it reports: an empty
      page, a short page, or a run of failures using up the attempts. */
  lemma {:induction false} FetchStops(answers: seq<Answer>, offset: nat, attempt: nat)
    requires attempt < MaxAttempts
    ensures var r := FetchFrom(answers, offset, attempt);
            var n := |r.offsets|;
            && (forall j :: 0 <= j < n - 1 ==> answers[j].Failed? || |answers[j].records| >= PageLimit)
            && (r.stop == EmptyPage <==> n > 0 && answers[n - 1] == Page([]))
            && (r.stop == ShortPage <==> n > 0 && answers[n - 1].Page? && 0 < |answers[n - 1].records| < PageLimit)
            && (r.stop == AttemptsExhausted ==> n > 0 && answers[n - 1].Failed?)
            && (r.stop == AnswersExhausted ==> n == |answers|)
    decreases |answers|
  {
    if |answers| > 0 {
      if answers[0].Failed? && attempt < MaxAttempts - 1 {
        FetchStops(answers[1..], offset, attempt + 1);
      } else if answers[0].Page? && |answers[0].records| >= PageLimit {
        FetchStops(answers[1..], offset + PageLimit, 0);
      }
    }
  }

  /** Where giving up leaves the answers consumed: either they are all
      failures (the attempts left on the first page ran out), or the last
      three are. */
  lemma {:induction false} FetchGivesUpAfterFailures(answers: seq<Answer>, offset: nat, attempt: nat)
    requires attempt < MaxAttempts
    requires FetchFrom(answers, offset, attempt).stop == AttemptsExhausted
    ensures var n := |FetchFrom(answers, offset, attempt).offsets|;
            || (n == MaxAttempts - attempt && forall j :: 0 <= j < n ==> answers[j].Failed?)
            || (n >= MaxAttempts && forall j :: n - MaxAttempts <= j < n ==> answers[j].Failed?)
    decreases |answers|
  {
    if answers[0].Failed? && attempt < MaxAttempts - 1 {
      FetchGivesUpAfterFailures(answers[1..], offset, attempt + 1);
    } else if answers[0].Page? && |answers[0].records| >= PageLimit {
      FetchGivesUpAfterFailures(answers[1..], offset + PageLimit, 0);
    }
  }

  /** A fetch for a date gives up only after three failed requests in a row. */
  lemma FetchForDateGivesUp(answers: seq<Answer>)
    requires FetchForDate(answers).stop == AttemptsExhausted
    ensures var n := |FetchForDate(answers).offsets|;
            n >= MaxAttempts && forall j :: n - MaxAttempts <= j < n ==> answers[j].Failed?
  {
    FetchGivesUpAfterFailures(answers, 0, 0);
  }
}
