/** The paginated domain fetcher, `query_domain(domain, email_count, api_keys)`:
    it keeps asking the selector for a key and a page size, asks the
    domain-search endpoint for the next page, and moves on by the page's
    length, until no email is left to fetch.

    The endpoints are inputs of the model. `rounds[r]` holds the account
    lookups of every configured key at the r-th trip round the loop (the
    quota is read afresh each time), and `search(domain, key, limit, offset)`
    is the list of email values a search request returns. The source has no
    guard against an empty page, after which the loop repeats the same
    request with the same state; the model therefore runs on a finite list of
    rounds and ends with `OutOfRounds` when that list is used up, which makes
    a loop that never finishes visible as that outcome. */
module Fetcher {
  import opened KeySelector
  import opened Wrappers

  /** The domain-search endpoint: the email values returned for a request
      with the given domain, key, limit and offset. */
  type SearchApi = (string, ApiKey, int, int) -> seq<string>

  /** The loop's variables: `emails`, `offset` and `emails_left`. */
  datatype FetchState = FetchState(emails: seq<string>, offset: int, emailsLeft: int)

  datatype FetchOutcome =
    | Fetched(emails: seq<string>)
      /** `NoValidApiKeyException` left `query_domain`; collected emails are lost. */
    | KeysExhausted
      /** the selector ended the process because no key is configured */
    | ProcessExit
      /** the rounds supplied ran out while emails were still left */
    | OutOfRounds

  /** What one trip round the loop does: move to a new state, or stop. */
  datatype Step = Advanced(next: FetchState) | Stopped(outcome: FetchOutcome)

  /** Every round supplies one lookup per configured key. */
  predicate WellFormed(keys: seq<ApiKey>, rounds: seq<seq<Lookup>>) {
    forall r :: 0 <= r < |rounds| ==> |rounds[r]| == |keys|
  }

  /** The state the loop starts from. */
  function Start(emailCount: int): FetchState {
    FetchState([], 0, emailCount)
  }

  /** One trip round the loop, with `lookups` the account lookups of that round. */
  function Round(domain: string, keys: seq<ApiKey>, lookups: seq<Lookup>, search: SearchApi,
                 st: FetchState): (step: Step)
    requires |lookups| == |keys|
    ensures step.Stopped? ==> step.outcome == KeysExhausted || step.outcome == ProcessExit
    ensures step.Advanced? ==>
              exists page :: step.next == FetchState(st.emails + page, st.offset + |page|, st.emailsLeft - |page|)
  {
    match GetApiKey(st.emailsLeft, keys, lookups)
    case NoApiKeys => Stopped(ProcessExit)
    case NoValidApiKey => Stopped(KeysExhausted)
    case Selected(_, key, limit) =>
      var page := search(domain, key, limit, st.offset);
      Advanced(FetchState(st.emails + page, st.offset + |page|, st.emailsLeft - |page|))
  }

  /** The loop run from state `st` on the remaining rounds. */
  function Run(domain: string, keys: seq<ApiKey>, rounds: seq<seq<Lookup>>, search: SearchApi,
               st: FetchState): FetchOutcome
    requires WellFormed(keys, rounds)
    decreases |rounds|
  {
    if st.emailsLeft <= 0 then Fetched(st.emails)
    else if |rounds| == 0 then OutOfRounds
    else
      var step := Round(domain, keys, rounds[0], search, st);
      if step.Stopped? then step.outcome
      else Run(domain, keys, rounds[1..], search, step.next)
  }

  /** What `query_domain` returns or raises. */
  function Fetch(domain: string, emailCount: int, keys: seq<ApiKey>, rounds: seq<seq<Lookup>>,
                 search: SearchApi): FetchOutcome
    requires WellFormed(keys, rounds)
  {
    Run(domain, keys, rounds, search, Start(emailCount))
  }

  /** `query_domain` itself: the `while emails_left > 0` loop over `emails`,
      `offset` and `emails_left`. */
  method QueryDomain(domain: string, emailCount: int, keys: seq<ApiKey>, rounds: seq<seq<Lookup>>,
                     search: SearchApi) returns (outcome: FetchOutcome)
    requires WellFormed(keys, rounds)
    ensures outcome == Fetch(domain, emailCount, keys, rounds, search)
    ensures emailCount <= 0 ==> outcome == Fetched([])
    ensures outcome.Fetched? ==> |outcome.emails| >= emailCount
  {
    var emails: seq<string> := [];
    var offset := 0;
    var emailsLeft := emailCount;
    var r := 0;
    while emailsLeft > 0
      invariant 0 <= r <= |rounds|
      invariant offset == |emails| && emailsLeft == emailCount - |emails|
      invariant Run(domain, keys, rounds[r..], search, FetchState(emails, offset, emailsLeft))
                == Fetch(domain, emailCount, keys, rounds, search)
      decreases |rounds| - r
    {
      if r == |rounds| {
        return OutOfRounds;
      }
      assert rounds[r..][0] == rounds[r] && rounds[r..][1..] == rounds[r + 1..];
      ghost var step := Round(domain, keys, rounds[r], search, FetchState(emails, offset, emailsLeft));
      var selection := GetApiKey(emailsLeft, keys, rounds[r]);
      match selection {
        case NoApiKeys =>
          assert step == Stopped(ProcessExit);
          return ProcessExit;
        case NoValidApiKey =>
          assert step == Stopped(KeysExhausted);
          return KeysExhausted;
        case Selected(_, key, limit) =>
          var page := search(domain, key, limit, offset);
          emails := emails + page;
          offset := offset + |page|;
          emailsLeft := emailsLeft - |page|;
          assert step == Advanced(FetchState(emails, offset, emailsLeft));
      }
      r := r + 1;
    }
    return Fetched(emails);
  }

  /** The state after `k` rounds that all fetched a page, or `None` when the
      loop stopped or finished before round `k`. */
  function After(domain: string, keys: seq<ApiKey>, rounds: seq<seq<Lookup>>, search: SearchApi,
                 st: FetchState, k: nat): (s: Option<FetchState>)
    requires WellFormed(keys, rounds) && k <= |rounds|
    decreases k
  {
    if k == 0 then Some(st)
    else
      var prev := After(domain, keys, rounds, search, st, k - 1);
      if prev.None? || prev.value.emailsLeft <= 0 then None
      else
        var step := Round(domain, keys, rounds[k - 1], search, prev.value);
        if step.Stopped? then None else Some(step.next)
  }

  /** Running from the start is running from any state the loop reaches. */
  lemma {:induction false} RunFromAfter(domain: string, keys: seq<ApiKey>, rounds: seq<seq<Lookup>>,
                                        search: SearchApi, st: FetchState, k: nat)
    requires WellFormed(keys, rounds) && k <= |rounds|
    requires After(domain, keys, rounds, search, st, k).Some?
    ensures Run(domain, keys, rounds, search, st) ==
            Run(domain, keys, rounds[k..], search, After(domain, keys, rounds, search, st, k).value)
    decreases k
  {
    if k > 0 {
      RunFromAfter(domain, keys, rounds, search, st, k - 1);
      var prev := After(domain, keys, rounds, search, st, k - 1).value;
      assert rounds[k - 1..][0] == rounds[k - 1] && rounds[k - 1..][1..] == rounds[k..];
    }
  }

  /** After every round, `offset == len(emails)` and
      `emails_left == email_count - len(emails)`; the round asked for the page
      at the current offset with the key and limit the selector granted, and
      appended that page to the emails collected before it. */
  lemma {:induction false} AfterInvariant(domain: string, emailCount: int, keys: seq<ApiKey>,
                                          rounds: seq<seq<Lookup>>, search: SearchApi, k: nat)
    requires WellFormed(keys, rounds) && k <= |rounds|
    requires After(domain, keys, rounds, search, Start(emailCount), k).Some?
    ensures var s := After(domain, keys, rounds, search, Start(emailCount), k).value;
            s.offset == |s.emails| && s.emailsLeft == emailCount - |s.emails|
    ensures k > 0 ==>
              var prev := After(domain, keys, rounds, search, Start(emailCount), k - 1);
              var s := After(domain, keys, rounds, search, Start(emailCount), k).value;
              prev.Some? && prev.value.emailsLeft > 0 &&
              var sel := GetApiKey(prev.value.emailsLeft, keys, rounds[k - 1]);
              sel.Selected? &&
              s.emails == prev.value.emails + search(domain, sel.key, sel.count, prev.value.offset)
    decreases k
  {
    if k > 0 {
      AfterInvariant(domain, emailCount, keys, rounds, search, k - 1);
    }
  }

  /** `NoValidApiKeyException` at any round ends the fetch with no emails,
      whatever was collected before it. */
  lemma ExhaustionPropagates(domain: string, emailCount: int, keys: seq<ApiKey>,
                             rounds: seq<seq<Lookup>>, search: SearchApi, k: nat)
    requires WellFormed(keys, rounds) && k < |rounds|
    requires After(domain, keys, rounds, search, Start(emailCount), k).Some?
    requires var s := After(domain, keys, rounds, search, Start(emailCount), k).value;
             s.emailsLeft > 0 && GetApiKey(s.emailsLeft, keys, rounds[k]).NoValidApiKey?
    ensures Fetch(domain, emailCount, keys, rounds, search) == KeysExhausted
  {
    RunFromAfter(domain, keys, rounds, search, Start(emailCount), k);
    assert rounds[k..][0] == rounds[k];
  }

  /** A successful fetch returns at least the emails that were left to
      fetch, after the ones already collected. */
  lemma {:induction false} RunCovers(domain: string, keys: seq<ApiKey>, rounds: seq<seq<Lookup>>,
                                     search: SearchApi, st: FetchState)
    requires WellFormed(keys, rounds)
    requires Run(domain, keys, rounds, search, st).Fetched?
    ensures var e := Run(domain, keys, rounds, search, st).emails;
            st.emails <= e && |e| - |st.emails| >= st.emailsLeft
    decreases |rounds|
  {
    if st.emailsLeft > 0 {
      var step := Round(domain, keys, rounds[0], search, st);
      RunCovers(domain, keys, rounds[1..], search, step.next);
    }
  }

  /** A returned list holds at least `email_count` emails. */
  lemma FetchCovers(domain: string, emailCount: int, keys: seq<ApiKey>, rounds: seq<seq<Lookup>>,
                    search: SearchApi)
    requires WellFormed(keys, rounds)
    requires Fetch(domain, emailCount, keys, rounds, search).Fetched?
    ensures |Fetch(domain, emailCount, keys, rounds, search).emails| >= emailCount
  {
    RunCovers(domain, keys, rounds, search, Start(emailCount));
  }

  /** An empty page leaves the loop's state exactly as it was. */
  lemma EmptyPageNoProgress(domain: string, keys: seq<ApiKey>, lookups: seq<Lookup>, search: SearchApi,
                            st: FetchState)
    requires |lookups| == |keys|
    requires GetApiKey(st.emailsLeft, keys, lookups).Selected?
    requires var s := GetApiKey(st.emailsLeft, keys, lookups);
             search(domain, s.key, s.count, st.offset) == []
    ensures Round(domain, keys, lookups, search, st) == Advanced(st)
  {
  }

  /** When every round hands out a key but the endpoint only returns empty
      pages, the loop never finishes: however many rounds are supplied, they
      all run out while emails are still left. */
  lemma {:induction false} EmptyPagesSpin(domain: string, keys: seq<ApiKey>, rounds: seq<seq<Lookup>>,
                                          search: SearchApi, st: FetchState)
    requires WellFormed(keys, rounds)
    requires st.emailsLeft > 0
    requires forall r :: 0 <= r < |rounds| ==> GetApiKey(st.emailsLeft, keys, rounds[r]).Selected?
    requires forall key, limit :: search(domain, key, limit, st.offset) == []
    ensures Run(domain, keys, rounds, search, st) == OutOfRounds
    decreases |rounds|
  {
    if |rounds| > 0 {
      EmptyPageNoProgress(domain, keys, rounds[0], search, st);
      assert forall r :: 0 <= r < |rounds| - 1 ==> rounds[1..][r] == rounds[r + 1];
      EmptyPagesSpin(domain, keys, rounds[1..], search, st);
    }
  }

  /** With non-empty pages, every round fetches at least one email, so when
      every round hands out a key the fetch completes within `emails_left`
      rounds. */
  lemma {:induction false} NonEmptyPagesFinish(domain: string, keys: seq<ApiKey>, rounds: seq<seq<Lookup>>,
                                               search: SearchApi, st: FetchState)
    requires WellFormed(keys, rounds)
    requires |rounds| >= st.emailsLeft
    requires forall r, needed :: 0 <= r < |rounds| ==> GetApiKey(needed, keys, rounds[r]).Selected?
    requires forall key, limit, offset :: search(domain, key, limit, offset) != []
    ensures Run(domain, keys, rounds, search, st).Fetched?
    decreases |rounds|
  {
    if st.emailsLeft > 0 {
      var step := Round(domain, keys, rounds[0], search, st);
      assert forall r :: 0 <= r < |rounds| - 1 ==> rounds[1..][r] == rounds[r + 1];
      NonEmptyPagesFinish(domain, keys, rounds[1..], search, step.next);
    }
  }

  /** Two keys, the first with one call left (10 emails) and the second with
      ten, and a domain with 12 emails. The first round grants the first key
      10 emails at offset 0. The second round sees the first key used up and
      grants the second key the 2 emails left, at offset 10. The endpoint here
      answers with `limit` copies of the key it was called with, but only to
      the first key at offset 0 and the second key at offset 10; any other
      request gets an empty page. */
  lemma TwoKeyRotation()
    ensures var keys := ["k1", "k2"];
            var rounds := [[Calls(1, 0), Calls(10, 0)], [Calls(1, 1), Calls(10, 0)]];
            var search := (d: string, k: ApiKey, limit: int, offset: int) =>
              if (k == "k1" && offset == 0) || (k == "k2" && offset == 10) then seq(if limit > 0 then limit else 0, _ => k) else [];
            WellFormed(keys, rounds) &&
            Fetch("b.com", 12, keys, rounds, search) == Fetched(seq(10, _ => "k1") + seq(2, _ => "k2"))
  {
    var keys := ["k1", "k2"];
    var rounds := [[Calls(1, 0), Calls(10, 0)], [Calls(1, 1), Calls(10, 0)]];
    var search := (d: string, k: ApiKey, limit: int, offset: int) =>
      if (k == "k1" && offset == 0) || (k == "k2" && offset == 10) then seq(if limit > 0 then limit else 0, _ => k) else [];
    assert GetApiKey(12, keys, rounds[0]) == Selected(0, "k1", 10);
    var first := FetchState(seq(10, _ => "k1"), 10, 2);
    assert Round("b.com", keys, rounds[0], search, Start(12)) == Advanced(first);
    assert GetApiKey(2, keys, rounds[1]) == Selected(1, "k2", 2);
    assert rounds[1..][0] == rounds[1];
    assert Round("b.com", keys, rounds[1], search, first) ==
           Advanced(FetchState(seq(10, _ => "k1") + seq(2, _ => "k2"), 12, 0));
  }
}
