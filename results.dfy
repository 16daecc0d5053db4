/** What `save_results` writes: the name of the output file, derived from
    the input file's name, and the rows of the `;`-separated file, a
    `Domain;Email` header and then one row per (domain, email) pair. */
module Results {
  import opened Text
  import opened Orchestrator

  /** One row of the output file, before the CSV writer quotes it. */
  datatype Row = Row(domain: string, email: string)

  /** The header row written by `writeheader()`. */
  const Header := Row("Domain", "Email")

  /** The suffix that replaces everything from the first `.` of the input name. */
  const ResultsSuffix := "_results.csv"

  /** `input_filename.split('.')[0] + '_results.csv'`. */
  function OutputFilename(inputFilename: string): (name: string)
    ensures |name| >= |ResultsSuffix|
    ensures var stem := name[..|name| - |ResultsSuffix|];
            name[|name| - |ResultsSuffix|..] == ResultsSuffix &&
            '.' !in stem && stem <= inputFilename &&
            (|stem| < |inputFilename| ==> inputFilename[|stem|] == '.')
  {
    var stem := Split(inputFilename, '.')[0];
    assert (stem + ResultsSuffix)[..|stem|] == stem;
    stem + ResultsSuffix
  }

  /** The rows for the results, in result order and then email order. */
  function Flatten(results: seq<DomainResult>): (rows: seq<Row>)
    ensures |rows| == TotalEmails(results)
    decreases |results|
  {
    if results == [] then [] else RowsOf(results[0]) + Flatten(results[1..])
  }

  /** A row is written exactly when some result has its domain and its email. */
  lemma {:induction false} FlattenMembers(results: seq<DomainResult>)
    ensures forall row :: row in Flatten(results) <==>
              exists k :: 0 <= k < |results| && row.domain == results[k].domain &&
                          row.email in results[k].emails
    decreases |results|
  {
    if results != [] {
      FlattenMembers(results[1..]);
      assert forall k :: 0 < k < |results| ==> results[k] == results[1..][k - 1];
      assert Flatten(results) == RowsOf(results[0]) + Flatten(results[1..]);
    }
  }

  /** The rows of one result: its domain paired with each of its emails. */
  function RowsOf(r: DomainResult): (rows: seq<Row>)
    ensures |rows| == |r.emails|
    ensures forall j :: 0 <= j < |rows| ==> rows[j] == Row(r.domain, r.emails[j])
    ensures forall row :: row in rows <==> row.domain == r.domain && row.email in r.emails
  {
    var rows := seq(|r.emails|, j requires 0 <= j < |r.emails| => Row(r.domain, r.emails[j]));
    assert forall e :: e in r.emails ==> Row(r.domain, e) in rows by {
      forall e | e in r.emails ensures Row(r.domain, e) in rows {
        var j :| 0 <= j < |r.emails| && r.emails[j] == e;
        assert rows[j] == Row(r.domain, e);
      }
    }
    rows
  }

  /** The number of emails across all results. */
  function TotalEmails(results: seq<DomainResult>): nat
    decreases |results|
  {
    if results == [] then 0 else |results[0].emails| + TotalEmails(results[1..])
  }

  /** The whole file: the header, then the rows. */
  function CsvRows(results: seq<DomainResult>): (rows: seq<Row>)
    ensures |rows| == 1 + TotalEmails(results)
  {
    [Header] + Flatten(results)
  }

  /** The file starts with the header; email `j` of result `k` is written on
      line 1 + (emails of the results before `k`) + `j`, as the row (domain
      of `k`, email `j`). */
  lemma CsvRowsAt(results: seq<DomainResult>, k: nat, j: nat)
    requires k < |results| && j < |results[k].emails|
    ensures CsvRows(results)[0] == Header
    ensures 1 + TotalEmails(results[..k]) + j < |CsvRows(results)|
    ensures CsvRows(results)[1 + TotalEmails(results[..k]) + j] ==
            Row(results[k].domain, results[k].emails[j])
  {
    FlattenAt(results, k, j);
  }

  /** A data line of the file is a row exactly when some result has its
      domain and its email. */
  lemma CsvRowsMembers(results: seq<DomainResult>)
    ensures CsvRows(results)[0] == Header
    ensures forall row :: row in CsvRows(results)[1..] <==>
              exists k :: 0 <= k < |results| && row.domain == results[k].domain &&
                          row.email in results[k].emails
  {
    FlattenMembers(results);
    assert CsvRows(results)[1..] == Flatten(results);
  }

  /** Flattening keeps the order of the results: the rows of `a + b` are the
      rows of `a` followed by those of `b`. */
  lemma {:induction false} FlattenAppend(a: seq<DomainResult>, b: seq<DomainResult>)
    ensures Flatten(a + b) == Flatten(a) + Flatten(b)
    decreases |a|
  {
    if a == [] {
      assert a + b == b;
    } else {
      assert (a + b)[0] == a[0] && (a + b)[1..] == a[1..] + b;
      FlattenAppend(a[1..], b);
    }
  }

  /** Row `j` of result `k` sits after the rows of all earlier results, and
      pairs that result's domain with its `j`-th email. */
  lemma {:induction false} FlattenAt(results: seq<DomainResult>, k: nat, j: nat)
    requires k < |results| && j < |results[k].emails|
    ensures TotalEmails(results[..k]) + j < |Flatten(results)|
    ensures Flatten(results)[TotalEmails(results[..k]) + j] ==
            Row(results[k].domain, results[k].emails[j])
    decreases k
  {
    var head := RowsOf(results[0]);
    var tail := results[1..];
    assert Flatten(results) == head + Flatten(tail);
    if k == 0 {
      assert results[..0] == [];
    } else {
      var before := results[..k];
      assert before[0] == results[0] && before[1..] == tail[..k - 1];
      assert TotalEmails(before) == |head| + TotalEmails(tail[..k - 1]);
      assert tail[k - 1] == results[k];
      FlattenAt(tail, k - 1, j);
    }
  }
}
