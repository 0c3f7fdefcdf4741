/**
 * The dictionary that `keys.reduce((memo, key, i) => { if (...) memo[key] = ...; return memo }, {})`
 * builds: walking the index-aligned keys and optional writes from left to right, a present
 * write assigns its value to its key, so a later write to the same key replaces an earlier one.
 */
module Dictionary {
  import opened Values

  /** The memo after every index of `keys` has been visited, starting from `{}`. */
  function Assigned<V>(keys: seq<string>, writes: seq<Option<V>>): (memo: map<string, V>)
    requires |keys| == |writes|
    decreases |keys|
  {
    if |keys| == 0 then map[]
    else
      var n := |keys| - 1;
      var memo := Assigned(keys[..n], writes[..n]);
      if writes[n].Some? then memo[keys[n] := writes[n].value] else memo
  }

  /** The last index whose key is `k` and whose write is present, or -1 when there is none. */
  function LastWrite<V>(keys: seq<string>, writes: seq<Option<V>>, k: string): (i: int)
    requires |keys| == |writes|
    ensures -1 <= i < |keys|
    ensures 0 <= i ==> keys[i] == k && writes[i].Some?
    ensures forall j :: i < j < |keys| ==> !(keys[j] == k && writes[j].Some?)
    decreases |keys|
  {
    if |keys| == 0 then -1
    else if keys[|keys| - 1] == k && writes[|keys| - 1].Some? then |keys| - 1
    else LastWrite(keys[..|keys| - 1], writes[..|keys| - 1], k)
  }

  /** A key is in the memo exactly when some index writes it, and it holds the last such write. */
  lemma {:induction false} AssignedIsLastWrite<V>(keys: seq<string>, writes: seq<Option<V>>, k: string)
    requires |keys| == |writes|
    ensures k in Assigned(keys, writes) <==> 0 <= LastWrite(keys, writes, k)
    ensures k in Assigned(keys, writes) ==>
              Assigned(keys, writes)[k] == writes[LastWrite(keys, writes, k)].value
    decreases |keys|
  {
    if |keys| > 0 {
      var n := |keys| - 1;
      AssignedIsLastWrite(keys[..n], writes[..n], k);
    }
  }

  /** Key membership stated without the helper: some index carries the key and a present write. */
  lemma AssignedKeys<V>(keys: seq<string>, writes: seq<Option<V>>, k: string)
    requires |keys| == |writes|
    ensures k in Assigned(keys, writes) <==>
              exists i :: 0 <= i < |keys| && keys[i] == k && writes[i].Some?
  {
    AssignedIsLastWrite(keys, writes, k);
  }

  /** Every key of the memo is one of the keys walked over. */
  lemma AssignedKeysFromKeys<V>(keys: seq<string>, writes: seq<Option<V>>)
    requires |keys| == |writes|
    ensures forall k :: k in Assigned(keys, writes) ==> k in keys
  {
    forall k | k in Assigned(keys, writes) ensures k in keys {
      AssignedIsLastWrite(keys, writes, k);
    }
  }

  /** A present write that no later index overwrites is what the memo holds for its key. */
  lemma AssignedAtIndex<V>(keys: seq<string>, writes: seq<Option<V>>, i: nat)
    requires |keys| == |writes| && i < |keys| && writes[i].Some?
    requires forall j :: i < j < |keys| && keys[j] == keys[i] ==> writes[j].None?
    ensures keys[i] in Assigned(keys, writes) && Assigned(keys, writes)[keys[i]] == writes[i].value
  {
    AssignedIsLastWrite(keys, writes, keys[i]);
  }

  /** With no present write at all, the memo stays `{}`. */
  lemma {:induction false} AssignedNoWrites<V>(keys: seq<string>, writes: seq<Option<V>>)
    requires |keys| == |writes|
    requires forall i :: 0 <= i < |writes| ==> writes[i].None?
    ensures Assigned(keys, writes) == map[]
    decreases |keys|
  {
    if |keys| > 0 {
      var n := |keys| - 1;
      AssignedNoWrites(keys[..n], writes[..n]);
    }
  }
}
