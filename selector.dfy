/** The quota-aware key selector: `get_api_key` walks the configured API keys
    in their fixed order, looks up each key's account, and hands out the first
    key that still has calls left, together with how many emails it may fetch. */
module KeySelector {

  type ApiKey = string

  /** Each remaining API call may fetch up to this many emails. */
  const EmailsPerCall := 10

  /** The answer of the account endpoint for one key: an error payload
      (revoked or malformed key), or the key's call counters. */
  datatype Lookup = LookupError | Calls(available: int, used: int)

  /** The calls a key has left; may be negative when `used` exceeds
      `available`. */
  function Remaining(l: Lookup): int
    requires l.Calls?
  {
    l.available - l.used
  }

  /** A key can be used when its lookup succeeded and it has calls left. */
  predicate Usable(l: Lookup) {
    l.Calls? && Remaining(l) > 0
  }

  /** The number of emails granted for a request of `needed` emails to a key
      with `remaining` calls left: what is needed when the key's capacity
      covers it, otherwise the key's whole capacity. */
  function Grant(needed: int, remaining: int): (n: int)
    requires remaining > 0
    ensures n <= needed && n <= remaining * EmailsPerCall
    ensures n == needed || n == remaining * EmailsPerCall
    ensures n == needed <==> remaining * EmailsPerCall >= needed
    ensures needed > 0 ==> n > 0
  {
    if remaining * EmailsPerCall >= needed then needed else remaining * EmailsPerCall
  }

  /** The outcome of one call of the selector. `NoApiKeys` is the process exit
      taken when no key is configured at all; `NoValidApiKey` is the exception
      raised when every configured key failed or is used up. */
  datatype Selection =
    | Selected(index: nat, key: ApiKey, count: int)
    | NoValidApiKey
    | NoApiKeys

  /** `i` is the position of the first usable key. */
  predicate FirstUsable(lookups: seq<Lookup>, i: nat) {
    i < |lookups| && Usable(lookups[i]) && forall j :: 0 <= j < i ==> !Usable(lookups[j])
  }

  /** The scan over the keys: `lookups[j]` is the account lookup of `keys[j]`. */
  function FirstFit(needed: int, keys: seq<ApiKey>, lookups: seq<Lookup>): (s: Selection)
    requires |lookups| == |keys|
    ensures !s.NoApiKeys?
    ensures s.NoValidApiKey? <==> forall j :: 0 <= j < |lookups| ==> !Usable(lookups[j])
    ensures s.Selected? ==>
              FirstUsable(lookups, s.index) && s.key == keys[s.index] &&
              s.count == Grant(needed, Remaining(lookups[s.index]))
    decreases |keys|
  {
    if |keys| == 0 then NoValidApiKey
    else if Usable(lookups[0]) then Selected(0, keys[0], Grant(needed, Remaining(lookups[0])))
    else
      var rest := FirstFit(needed, keys[1..], lookups[1..]);
      if rest.Selected? then Selected(rest.index + 1, rest.key, rest.count) else rest
  }

  /** `get_api_key(email_count, api_keys)`, with the live account lookups of
      the keys supplied as `lookups`. */
  function GetApiKey(needed: int, keys: seq<ApiKey>, lookups: seq<Lookup>): (s: Selection)
    requires |lookups| == |keys|
    ensures s.NoApiKeys? <==> |keys| == 0
    ensures s.NoValidApiKey? <==>
              |keys| > 0 && forall j :: 0 <= j < |keys| ==> !Usable(lookups[j])
    ensures s.Selected? ==>
              FirstUsable(lookups, s.index) && s.key == keys[s.index] &&
              s.count == Grant(needed, Remaining(lookups[s.index]))
  {
    if |keys| == 0 then NoApiKeys else FirstFit(needed, keys, lookups)
  }

  /** The selector never consults a key after the one it picks: changing the
      lookups of later keys does not change its answer. */
  lemma {:induction false} IgnoresLaterKeys(needed: int, keys: seq<ApiKey>, lookups: seq<Lookup>, other: seq<Lookup>)
    requires |lookups| == |keys| == |other|
    requires GetApiKey(needed, keys, lookups).Selected?
    requires other[..GetApiKey(needed, keys, lookups).index + 1] ==
             lookups[..GetApiKey(needed, keys, lookups).index + 1]
    ensures GetApiKey(needed, keys, other) == GetApiKey(needed, keys, lookups)
  {
    var s := GetApiKey(needed, keys, lookups);
    assert FirstUsable(other, s.index) by {
      assert forall j :: 0 <= j <= s.index ==> other[j] == other[..s.index + 1][j];
      assert forall j :: 0 <= j <= s.index ==> lookups[j] == lookups[..s.index + 1][j];
    }
    FirstUsableUnique(other, GetApiKey(needed, keys, other).index, s.index);
  }

  /** There is at most one first usable key. */
  lemma FirstUsableUnique(lookups: seq<Lookup>, i: nat, j: nat)
    requires FirstUsable(lookups, i) && FirstUsable(lookups, j)
    ensures i == j
  {
  }
}
