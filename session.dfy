/** One run of the program on a domain list, as `main` performs it when the
    `--apikey` flag is not given: load the keys from `api.txt`, strip the
    lines of the domain file, run the domain loop, and save the results.
    The contents of both files are inputs, and so are the endpoints. */
module Session {
  import opened Wrappers
  import opened Text
  import opened KeySelector
  import opened Fetcher
  import opened Orchestrator
  import opened Results
  import opened InputFiles

  /** How a run ends: the output file's name and rows; the key file had a
      line without a `:`; the process was exited by the selector; or
      `NeverFinishes`: a fetch used up the rounds supplied to it (a run that
      more rounds would finish included). */
  datatype SessionOutcome =
    | Saved(filename: string, rows: seq<Row>)
    | KeyFileMalformed
    | ExitedEarly
    | NeverFinishes

  /** `[line.strip() for line in infile.readlines()]`. */
  function DomainList(lines: seq<string>): seq<string> {
    seq(|lines|, i requires 0 <= i < |lines| => Strip(lines[i]))
  }

  /** The run: `inputs[i]` is what the endpoints report for the domain on
      line `i` of the domain file. */
  function Hunt(inputFilename: string, keyLines: seq<string>, domainLines: seq<string>,
                inputs: seq<DomainInput>, search: SearchApi): (o: SessionOutcome)
    requires |inputs| == |domainLines|
    requires LoadKeys(keyLines).Some? ==> InputsWellFormed(LoadKeys(keyLines).value, inputs)
    ensures o.KeyFileMalformed? <==> exists i :: 0 <= i < |keyLines| && ParseKeyLine(keyLines[i]).None?
    ensures o.Saved? <==>
              LoadKeys(keyLines).Some? &&
              Collect(DomainList(domainLines), inputs, LoadKeys(keyLines).value, search).Finished?
    ensures o.ExitedEarly? <==>
              LoadKeys(keyLines).Some? &&
              Collect(DomainList(domainLines), inputs, LoadKeys(keyLines).value, search).Exited?
    ensures o.Saved? ==>
              o.filename == OutputFilename(inputFilename) &&
              |o.rows| >= 1 && o.rows[0] == Header
  {
    LoadKeysFails(keyLines);
    match LoadKeys(keyLines)
    case None => KeyFileMalformed
    case Some(keys) =>
      var run := Collect(DomainList(domainLines), inputs, keys, search);
      if run.Finished? then Saved(OutputFilename(inputFilename), CsvRows(run.results))
      else if run.Exited? then ExitedEarly
      else NeverFinishes
  }

  /** Every data row of the saved file pairs a stripped domain line whose
      count was non-zero with one of the emails its fetch returned. */
  lemma HuntRowsSound(inputFilename: string, keyLines: seq<string>, domainLines: seq<string>,
                      inputs: seq<DomainInput>, search: SearchApi)
    requires |inputs| == |domainLines|
    requires LoadKeys(keyLines).Some? ==> InputsWellFormed(LoadKeys(keyLines).value, inputs)
    requires Hunt(inputFilename, keyLines, domainLines, inputs, search).Saved?
    ensures var keys := LoadKeys(keyLines).value;
            forall row :: row in Hunt(inputFilename, keyLines, domainLines, inputs, search).rows[1..] ==>
              exists i :: 0 <= i < |domainLines| && row.domain == Strip(domainLines[i]) &&
                          inputs[i].count != 0 &&
                          Fetch(row.domain, inputs[i].count, keys, inputs[i].rounds, search).Fetched? &&
                          row.email in Fetch(row.domain, inputs[i].count, keys, inputs[i].rounds, search).emails
  {
    var keys := LoadKeys(keyLines).value;
    var domains := DomainList(domainLines);
    var results := Collect(domains, inputs, keys, search).results;
    CollectSound(domains, inputs, keys, search);
    FlattenMembers(results);
    var rows := Hunt(inputFilename, keyLines, domainLines, inputs, search).rows;
    assert rows[1..] == Flatten(results);
    forall row | row in rows[1..]
      ensures exists i :: 0 <= i < |domainLines| && row.domain == Strip(domainLines[i]) &&
                          inputs[i].count != 0 &&
                          Fetch(row.domain, inputs[i].count, keys, inputs[i].rounds, search).Fetched? &&
                          row.email in Fetch(row.domain, inputs[i].count, keys, inputs[i].rounds, search).emails
    {
      var k :| 0 <= k < |results| && row.domain == results[k].domain && row.email in results[k].emails;
      assert results[k] in results;
      var i :| KeptAs(domains, inputs, keys, search, i, results[k]);
    }
  }

  /** When the keys load and the domain loop finishes, the run is saved, and
      every email fetched for a stripped domain line whose count was non-zero
      is saved, paired with that domain. */
  lemma HuntRowsComplete(inputFilename: string, keyLines: seq<string>, domainLines: seq<string>,
                         inputs: seq<DomainInput>, search: SearchApi, i: nat, e: string)
    requires |inputs| == |domainLines|
    requires LoadKeys(keyLines).Some? && InputsWellFormed(LoadKeys(keyLines).value, inputs)
    requires Collect(DomainList(domainLines), inputs, LoadKeys(keyLines).value, search).Finished?
    requires i < |domainLines| && inputs[i].count != 0
    requires var f := Fetch(Strip(domainLines[i]), inputs[i].count, LoadKeys(keyLines).value,
                            inputs[i].rounds, search);
             f.Fetched? && e in f.emails
    ensures Hunt(inputFilename, keyLines, domainLines, inputs, search).Saved?
    ensures Row(Strip(domainLines[i]), e) in Hunt(inputFilename, keyLines, domainLines, inputs, search).rows[1..]
  {
    var keys := LoadKeys(keyLines).value;
    var domains := DomainList(domainLines);
    var results := Collect(domains, inputs, keys, search).results;
    CollectComplete(domains, inputs, keys, search, i);
    var f := Fetch(domains[i], inputs[i].count, keys, inputs[i].rounds, search);
    var k :| 0 <= k < |results| && results[k] == DomainResult(domains[i], f.emails);
    CsvRowsMembers(results);
  }

  /** Domains `a.com` and `b.com`, with one key worth two calls: `a.com`
      reports no emails and is skipped; `b.com` reports 15, fetched in one
      request with limit 15 at offset 0. The file gets the header and 15 rows
      for `b.com`. The endpoint here answers with `limit` copies of the
      domain's name. */
  lemma TwoDomainScenario()
    ensures var search := (d: string, k: ApiKey, limit: int, offset: int) => seq(if limit > 0 then limit else 0, _ => d);
            var inputs := [DomainInput(0, []), DomainInput(15, [[Calls(2, 0)]])];
            var run := Collect(["a.com", "b.com"], inputs, ["k1"], search);
            run == Finished([DomainResult("b.com", seq(15, _ => "b.com"))]) &&
            CsvRows(run.results) == [Header] + seq(15, _ => Row("b.com", "b.com"))
  {
    var search := (d: string, k: ApiKey, limit: int, offset: int) => seq(if limit > 0 then limit else 0, _ => d);
    var inputs := [DomainInput(0, []), DomainInput(15, [[Calls(2, 0)]])];
    var emails := seq(15, _ => "b.com");
    assert Fetch("b.com", 15, ["k1"], [[Calls(2, 0)]], search) == Fetched(emails) by {
      assert GetApiKey(15, ["k1"], [Calls(2, 0)]) == Selected(0, "k1", 15);
    }
    var results := [DomainResult("b.com", emails)];
    assert Collect(["a.com", "b.com"], inputs, ["k1"], search) == Finished(results) by {
      assert ["a.com", "b.com"][1..] == ["b.com"] && inputs[1..] == [inputs[1]];
      assert ["b.com"][1..] == [] && [inputs[1]][1..] == [];
    }
    assert Flatten(results) == seq(15, _ => Row("b.com", "b.com")) by {
      assert results[1..] == [];
    }
  }
}
