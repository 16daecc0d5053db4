/** The domain loop of `main`: for each domain in order, ask the email-count
    endpoint how many emails it has, fetch them when that count is non-zero,
    and append `{domain, emails}` to the results unless the keys ran out.

    The email-count endpoint and the per-round account lookups are inputs:
    `inputs[i]` holds the count reported for `domains[i]` and the lookups its
    fetch loop sees. */
module Orchestrator {
  import opened KeySelector
  import opened Fetcher

  /** What the endpoints report for one domain. */
  datatype DomainInput = DomainInput(count: int, rounds: seq<seq<Lookup>>)

  /** One entry of `results`: `{'domain': domain, 'emails': emails}`. */
  datatype DomainResult = DomainResult(domain: string, emails: seq<string>)

  /** How the domain loop ends: with the results to save, with the process
      exited by the selector (no key configured), or `Hung`: a fetch loop
      used up the rounds supplied to it. Given more rounds, such a run may
      still finish; endless empty pages are the case where it never does. */
  datatype RunOutcome = Finished(results: seq<DomainResult>) | Exited | Hung

  predicate InputsWellFormed(keys: seq<ApiKey>, inputs: seq<DomainInput>) {
    forall i :: 0 <= i < |inputs| ==> WellFormed(keys, inputs[i].rounds)
  }

  /** `rs` followed by the results of `o`, if `o` finishes. */
  function Prepend(rs: seq<DomainResult>, o: RunOutcome): RunOutcome {
    if o.Finished? then Finished(rs + o.results) else o
  }

  /** The domain loop over `domains`, specified domain by domain. */
  function Collect(domains: seq<string>, inputs: seq<DomainInput>, keys: seq<ApiKey>,
                   search: SearchApi): RunOutcome
    requires |inputs| == |domains| && InputsWellFormed(keys, inputs)
    decreases |domains|
  {
    if |domains| == 0 then Finished([])
    else
      var rest := Collect(domains[1..], inputs[1..], keys, search);
      if inputs[0].count == 0 then rest
      else
        match Fetch(domains[0], inputs[0].count, keys, inputs[0].rounds, search)
        case ProcessExit => Exited
        case OutOfRounds => Hung
        case KeysExhausted => rest
        case Fetched(emails) => Prepend([DomainResult(domains[0], emails)], rest)
  }

  /** The domain loop as `main` runs it, appending to `results`. */
  method ProcessDomains(domains: seq<string>, inputs: seq<DomainInput>, keys: seq<ApiKey>,
                        search: SearchApi) returns (outcome: RunOutcome)
    requires |inputs| == |domains| && InputsWellFormed(keys, inputs)
    ensures outcome == Collect(domains, inputs, keys, search)
  {
    var results: seq<DomainResult> := [];
    for i := 0 to |domains|
      invariant Collect(domains, inputs, keys, search) ==
                Prepend(results, Collect(domains[i..], inputs[i..], keys, search))
    {
      assert domains[i..][1..] == domains[i + 1..] && inputs[i..][1..] == inputs[i + 1..];
      ghost var rest := Collect(domains[i + 1..], inputs[i + 1..], keys, search);
      var count := inputs[i].count;
      if count != 0 {
        var fetched := QueryDomain(domains[i], count, keys, inputs[i].rounds, search);
        match fetched {
          case ProcessExit =>
            return Exited;
          case OutOfRounds =>
            return Hung;
          case KeysExhausted =>
            assert Collect(domains[i..], inputs[i..], keys, search) == rest;
          case Fetched(emails) =>
            var r := DomainResult(domains[i], emails);
            assert Collect(domains[i..], inputs[i..], keys, search) == Prepend([r], rest);
            assert rest.Finished? ==> results + ([r] + rest.results) == (results + [r]) + rest.results;
            results := results + [r];
        }
      } else {
        assert Collect(domains[i..], inputs[i..], keys, search) == rest;
      }
    }
    return Finished(results);
  }

  /** `domains[i]` is kept in the results as `r`: its count is non-zero and its
      fetch returned `r.emails`. */
  predicate KeptAs(domains: seq<string>, inputs: seq<DomainInput>, keys: seq<ApiKey>,
                   search: SearchApi, i: int, r: DomainResult)
    requires |inputs| == |domains| && InputsWellFormed(keys, inputs)
  {
    0 <= i < |domains| && r.domain == domains[i] && inputs[i].count != 0 &&
    Fetch(domains[i], inputs[i].count, keys, inputs[i].rounds, search) == Fetched(r.emails)
  }

  /** Every result comes from a domain with a non-zero count whose fetch
      succeeded, and carries exactly the emails of that fetch; so zero-count
      domains and domains whose keys ran out leave no entry. */
  lemma {:induction false} CollectSound(domains: seq<string>, inputs: seq<DomainInput>,
                                        keys: seq<ApiKey>, search: SearchApi)
    requires |inputs| == |domains| && InputsWellFormed(keys, inputs)
    requires Collect(domains, inputs, keys, search).Finished?
    ensures |Collect(domains, inputs, keys, search).results| <= |domains|
    ensures forall r :: r in Collect(domains, inputs, keys, search).results ==>
              exists i :: KeptAs(domains, inputs, keys, search, i, r)
    decreases |domains|
  {
    if |domains| > 0 {
      var rs := Collect(domains, inputs, keys, search).results;
      var tail := Collect(domains[1..], inputs[1..], keys, search);
      assert tail.Finished?;
      CollectSound(domains[1..], inputs[1..], keys, search);
      assert rs == tail.results || rs == [rs[0]] + tail.results;
      forall r | r in rs
        ensures exists i :: KeptAs(domains, inputs, keys, search, i, r)
      {
        if r !in tail.results {
          assert KeptAs(domains, inputs, keys, search, 0, r);
        } else {
          var i :| KeptAs(domains[1..], inputs[1..], keys, search, i, r);
          assert KeptAs(domains, inputs, keys, search, i + 1, r);
        }
      }
    }
  }

  /** Every domain with a non-zero count whose fetch succeeded is in the
      results, with the emails that fetch returned. */
  lemma {:induction false} CollectComplete(domains: seq<string>, inputs: seq<DomainInput>,
                                           keys: seq<ApiKey>, search: SearchApi, i: nat)
    requires |inputs| == |domains| && InputsWellFormed(keys, inputs)
    requires Collect(domains, inputs, keys, search).Finished?
    requires i < |domains| && inputs[i].count != 0
    requires Fetch(domains[i], inputs[i].count, keys, inputs[i].rounds, search).Fetched?
    ensures DomainResult(domains[i], Fetch(domains[i], inputs[i].count, keys, inputs[i].rounds, search).emails)
            in Collect(domains, inputs, keys, search).results
    decreases |domains|
  {
    if i > 0 {
      assert domains[1..][i - 1] == domains[i] && inputs[1..][i - 1] == inputs[i];
      CollectComplete(domains[1..], inputs[1..], keys, search, i - 1);
    }
  }

  /** The results of two lists of domains processed one after the other.
      The first list's results come first; if it never finishes, the second
      list is never reached. */
  function Then(first: RunOutcome, second: RunOutcome): RunOutcome {
    if first.Finished? then Prepend(first.results, second) else first
  }

  /** Prepending results before running a second list is the same as
      prepending them to the combined run. */
  lemma PrependThen(rs: seq<DomainResult>, first: RunOutcome, second: RunOutcome)
    ensures Then(Prepend(rs, first), second) == Prepend(rs, Then(first, second))
  {
    if first.Finished? && second.Finished? {
      assert rs + (first.results + second.results) == (rs + first.results) + second.results;
    }
  }

  /** Results keep the order of the input domains: processing `d1 + d2` gives
      the results of `d1` followed by those of `d2`. */
  lemma {:induction false} CollectAppend(d1: seq<string>, in1: seq<DomainInput>,
                                         d2: seq<string>, in2: seq<DomainInput>,
                                         keys: seq<ApiKey>, search: SearchApi)
    requires |in1| == |d1| && InputsWellFormed(keys, in1)
    requires |in2| == |d2| && InputsWellFormed(keys, in2)
    ensures InputsWellFormed(keys, in1 + in2)
    ensures Collect(d1 + d2, in1 + in2, keys, search) ==
            Then(Collect(d1, in1, keys, search), Collect(d2, in2, keys, search))
    decreases |d1|
  {
    assert forall i :: 0 <= i < |in1 + in2| ==>
      (in1 + in2)[i] == if i < |in1| then in1[i] else in2[i - |in1|];
    if |d1| == 0 {
      assert d1 + d2 == d2 && in1 + in2 == in2;
    } else {
      var d, ins := d1 + d2, in1 + in2;
      assert d[0] == d1[0] && ins[0] == in1[0];
      assert d[1..] == d1[1..] + d2 && ins[1..] == in1[1..] + in2;
      CollectAppend(d1[1..], in1[1..], d2, in2, keys, search);
      var rest1 := Collect(d1[1..], in1[1..], keys, search);
      var second := Collect(d2, in2, keys, search);
      assert Collect(d[1..], ins[1..], keys, search) == Then(rest1, second);
      if in1[0].count != 0 {
        var f := Fetch(d1[0], in1[0].count, keys, in1[0].rounds, search);
        if f.Fetched? {
          var r := DomainResult(d1[0], f.emails);
          assert Collect(d1, in1, keys, search) == Prepend([r], rest1);
          assert Collect(d, ins, keys, search) == Prepend([r], Then(rest1, second));
          PrependThen([r], rest1, second);
        }
      }
    }
  }

  /** With no key configured, the first domain that needs fetching ends the
      process, so no results are saved. A domain that needs fetching is one
      with a positive count; here each such domain up to `domains[i]` gets at
      least one round, so its fetch reaches the selector. */
  lemma {:induction false} NoKeysExits(domains: seq<string>, inputs: seq<DomainInput>,
                                       search: SearchApi, i: nat)
    requires |inputs| == |domains| && InputsWellFormed([], inputs)
    requires i < |domains| && inputs[i].count > 0
    requires forall j :: 0 <= j <= i && inputs[j].count > 0 ==> |inputs[j].rounds| > 0
    ensures Collect(domains, inputs, [], search) == Exited
    decreases |domains|
  {
    if inputs[0].count > 0 {
      assert inputs[0].rounds[0] == [];
    } else {
      assert inputs[1..][i - 1] == inputs[i];
      forall j | 0 <= j <= i - 1 && inputs[1..][j].count > 0
        ensures |inputs[1..][j].rounds| > 0
      {
        assert inputs[1..][j] == inputs[j + 1];
      }
      NoKeysExits(domains[1..], inputs[1..], search, i - 1);
    }
  }
}
