/**
 * utils/definitions.py: the definitions store of the v1 stack, a dictionary
 * from keys to definition texts with an exact-then-case-insensitive lookup.
 */
module Definitions {
  import opened Common
  import opened Text

  /**
   * `DefinitionsStore.defs`. A Python dictionary iterates its keys in
   * insertion order, so the store keeps that order beside the map.
   */
  datatype DefinitionsStore = DefinitionsStore(keys: seq<string>, defs: map<string, string>)

  /** The order lists every key of the dictionary once. */
  predicate Wf(s: DefinitionsStore) {
    NoDup(s.keys) && s.defs.Keys == set k | k in s.keys
  }

  /** The keys `k` with `k.lower() == key.lower()`. */
  predicate SameIgnoringCase(k: string, key: string) {
    Lower(k) == Lower(key)
  }

  /** `keys[i]` is the first key of `keys` that equals `key` ignoring case. */
  predicate FirstMatch(keys: seq<string>, key: string, i: int) {
    0 <= i < |keys| && SameIgnoringCase(keys[i], key)
    && forall j :: 0 <= j < i ==> !SameIgnoringCase(keys[j], key)
  }

  /** Index of the first key in `keys` equal to `key` ignoring case, or `|keys|`. */
  function FirstCaseless(keys: seq<string>, key: string): (i: nat)
    ensures i <= |keys|
    ensures i < |keys| ==> SameIgnoringCase(keys[i], key)
    ensures forall j :: 0 <= j < i ==> !SameIgnoringCase(keys[j], key)
  {
    if keys == [] then 0
    else if SameIgnoringCase(keys[0], key) then 0
    else 1 + FirstCaseless(keys[1..], key)
  }

  /** `find`: the exact entry, else the first entry matching ignoring case, else None. */
  function Find(s: DefinitionsStore, key: string): (r: Option<string>)
    requires Wf(s)
  {
    if key in s.defs then Some(s.defs[key])
    else
      var i := FirstCaseless(s.keys, key);
      if i < |s.keys| then Some(s.defs[s.keys[i]]) else None
  }

  /**
   * An exact key wins, even over an earlier key that matches ignoring case;
   * without one, the answer is the entry of the first key in insertion order
   * that matches ignoring case; None exactly when no key matches either way.
   */
  lemma FindSpec(s: DefinitionsStore, key: string)
    requires Wf(s)
    ensures key in s.defs ==> Find(s, key) == Some(s.defs[key])
    ensures key !in s.defs ==> forall i :: FirstMatch(s.keys, key, i) ==> Find(s, key) == Some(s.defs[s.keys[i]])
    ensures Find(s, key) == None <==> forall k :: k in s.defs ==> !SameIgnoringCase(k, key)
  {
    if key !in s.defs {
      var f := FirstCaseless(s.keys, key);
      forall i | FirstMatch(s.keys, key, i) ensures Find(s, key) == Some(s.defs[s.keys[i]]) {
        assert f == i;
      }
      if f == |s.keys| {
        forall k | k in s.defs ensures !SameIgnoringCase(k, key) {
          var j :| 0 <= j < |s.keys| && s.keys[j] == k;
        }
      }
    }
  }

  /** Any answer is the definition of a key that equals the query ignoring case. */
  lemma FindSound(s: DefinitionsStore, key: string)
    requires Wf(s)
    ensures Find(s, key).Some? ==> exists k :: k in s.defs && SameIgnoringCase(k, key) && s.defs[k] == Find(s, key).value
  {
    if key in s.defs {
      assert SameIgnoringCase(key, key);
    } else {
      var i := FirstCaseless(s.keys, key);
      if i < |s.keys| {
        var k := s.keys[i];
        assert k in s.defs && SameIgnoringCase(k, key);
      }
    }
  }

  /** Whether a definition is found does not depend on the case of the query. */
  lemma FindCaseInsensitive(s: DefinitionsStore, a: string, b: string)
    requires Wf(s) && Lower(a) == Lower(b)
    ensures Find(s, a).Some? <==> Find(s, b).Some?
    ensures a !in s.defs && b !in s.defs ==> Find(s, a) == Find(s, b)
  {
    FindSpec(s, a);
    FindSpec(s, b);
    assert forall k :: SameIgnoringCase(k, a) <==> SameIgnoringCase(k, b);
    if a !in s.defs && b !in s.defs {
      FirstCaselessSame(s.keys, a, b);
    }
  }

  lemma {:induction false} FirstCaselessSame(keys: seq<string>, a: string, b: string)
    requires Lower(a) == Lower(b)
    ensures FirstCaseless(keys, a) == FirstCaseless(keys, b)
  {
    if keys != [] && !SameIgnoringCase(keys[0], a) {
      FirstCaselessSame(keys[1..], a, b);
    }
  }
}
