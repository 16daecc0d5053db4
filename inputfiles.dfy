/** Reading the key file `api.txt`: each line is `label:key`, and the key is
    field 1 of `line.strip().split(':')`. A line without a `:` has no field 1,
    and the `IndexError` this raises ends the program. */
module InputFiles {
  import opened Wrappers
  import opened Text

  /** `line.strip().split(':')[1]`, or `None` where that field does not exist:
      the text after the first `:` of the stripped line, up to the next `:`. */
  function ParseKeyLine(line: string): (key: Option<string>)
    ensures key.Some? <==> !Free(Strip(line), ':')
    ensures key.Some? ==> KeyFieldOf(Strip(line), key.value)
  {
    var t := Strip(line);
    var fields := Split(t, ':');
    SplitFields(t, ':');
    if |fields| >= 2 then
      SecondFieldShape(t);
      Some(fields[1])
    else None
  }

  /** `key` sits in `t` between its first `:` and the next `:` or the end. */
  predicate KeyFieldOf(t: string, key: string) {
    var prefix := BeforeFirst(t, ':');
    var end := |prefix| + 1 + |key|;
    Free(prefix, ':') && Free(key, ':') && end <= |t| &&
    t[..end] == prefix + [':'] + key &&
    (end < |t| ==> t[end] == ':')
  }

  /** Where field 1 of `t.split(':')` sits in `t`. */
  lemma SecondFieldShape(t: string)
    requires !Free(t, ':')
    ensures |Split(t, ':')| >= 2 && KeyFieldOf(t, Split(t, ':')[1])
  {
    SplitSecond(t, ':');
    SplitFields(t, ':');
    FirstTwoFields(t, ':');
  }

  /** A line written as `label:key` gives back `key`, provided neither part
      holds a `:` and the line has no whitespace at either end. */
  lemma KeyLineRoundTrip(prefix: string, key: string)
    requires Free(prefix, ':') && Free(key, ':')
    requires prefix == [] || !IsSpace(prefix[0])
    requires key == [] || !IsSpace(key[|key| - 1])
    ensures ParseKeyLine(prefix + [':'] + key) == Some(key)
  {
    var line := prefix + [':'] + key;
    assert line[0] == if prefix == [] then ':' else prefix[0];
    assert line[|line| - 1] == if key == [] then ':' else key[|key| - 1];
    StripTrimmed(line);
    assert Join([prefix, key], ':') == line by {
      assert [prefix, key][1..] == [key];
    }
    SplitJoin([prefix, key], ':');
    assert line[|prefix|] == ':';
  }

  /** `[k.strip().split(':')[1] for k in api_file.readlines()]`: the keys of
      all lines in order, or `None` when some line has no key field. */
  function LoadKeys(lines: seq<string>): (keys: Option<seq<string>>)
    ensures keys.Some? ==> |keys.value| == |lines|
    decreases |lines|
  {
    if lines == [] then Some([])
    else
      var head := ParseKeyLine(lines[0]);
      var tail := LoadKeys(lines[1..]);
      if head.None? || tail.None? then None
      else Some([head.value] + tail.value)
  }

  /** Loading fails exactly when some line has no key field. */
  lemma {:induction false} LoadKeysFails(lines: seq<string>)
    ensures LoadKeys(lines).None? <==> exists i :: 0 <= i < |lines| && ParseKeyLine(lines[i]).None?
    decreases |lines|
  {
    if lines != [] {
      var tail := lines[1..];
      LoadKeysFails(tail);
      if LoadKeys(lines).None? && ParseKeyLine(lines[0]).Some? {
        var i :| 0 <= i < |tail| && ParseKeyLine(tail[i]).None?;
        assert tail[i] == lines[i + 1];
      }
      if LoadKeys(lines).Some? {
        forall i | 0 < i < |lines| ensures ParseKeyLine(lines[i]).Some? {
          assert tail[i - 1] == lines[i];
        }
      }
    }
  }

  /** A loaded key list holds, at each position `i`, the key field of line `i`. */
  lemma {:induction false} LoadKeysFields(lines: seq<string>)
    requires LoadKeys(lines).Some?
    ensures forall i :: 0 <= i < |lines| ==> ParseKeyLine(lines[i]) == Some(LoadKeys(lines).value[i])
    decreases |lines|
  {
    if lines != [] {
      var tail := lines[1..];
      LoadKeysFields(tail);
      var keys := LoadKeys(lines).value;
      assert keys == [ParseKeyLine(lines[0]).value] + LoadKeys(tail).value;
      forall i | 0 < i < |lines| ensures ParseKeyLine(lines[i]) == Some(keys[i]) {
        assert tail[i - 1] == lines[i] && keys[i] == LoadKeys(tail).value[i - 1];
      }
    }
  }
}
