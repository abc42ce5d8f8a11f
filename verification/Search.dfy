/** Finding a text inside a text, as `std::string_view::find` does. */
module Search {
  import opened Bytes

  /** `key` stands in `s` at position `at`. */
  predicate At(s: Text, key: Text, at: nat) {
    at + |key| <= |s| && s[at..at + |key|] == key
  }

  /** The first position not before `from` at which `key` stands. */
  function Find(s: Text, key: Text, from: nat): (found: Option<nat>)
    ensures found.Some? ==> from <= found.value && At(s, key, found.value)
    ensures forall k :: from <= k && (found.Some? ==> k < found.value) ==> !At(s, key, k)
    decreases |s| - from
  {
    if from + |key| > |s| then None
    else if At(s, key, from) then Some(from)
    else Find(s, key, from + 1)
  }

  /** The first occurrence is the only position that `Find` can return. */
  lemma FindIs(s: Text, key: Text, from: nat, at: nat)
    requires from <= at && At(s, key, at) && forall k :: from <= k < at ==> !At(s, key, k)
    ensures Find(s, key, from) == Some(at)
  {
    var found := Find(s, key, from);
    assert found.None? ==> !At(s, key, at);
  }

  /** Skipping a prefix in which no occurrence starts only shifts the result. */
  lemma FindAfter(s: Text, key: Text, skipped: nat)
    requires skipped <= |s|
    requires forall k :: 0 <= k < skipped ==> !At(s, key, k)
    ensures var found, later := Find(s, key, 0), Find(s[skipped..], key, 0);
      found == if later.Some? then Some(skipped + later.value) else None
  {
    var later := Find(s[skipped..], key, 0);
    forall k: nat | skipped <= k ensures At(s, key, k) == At(s[skipped..], key, k - skipped) {
      if k + |key| <= |s| {
        assert s[skipped..][k - skipped..k - skipped + |key|] == s[k..k + |key|];
      }
    }
    if later.Some? {
      FindIs(s, key, 0, skipped + later.value);
    }
  }

  method FindText(s: Text, key: Text, from: nat) returns (found: Option<nat>)
    ensures found == Find(s, key, from)
  {
    var at := from;
    while at + |key| <= |s|
      invariant from <= at
      invariant Find(s, key, from) == Find(s, key, at)
      decreases |s| - at
    {
      if s[at..at + |key|] == key {
        return Some(at);
      }
      at := at + 1;
    }
    found := None;
  }
}
