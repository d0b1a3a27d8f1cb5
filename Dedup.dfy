/** De-duplication of an entity set's records by their key fields: a record
    is kept only when no record kept before it has `===` values on every key
    field. */
module Dedup {
  import opened Values

  /** Every key field of `kept` is `===` to the same field of `candidate`. */
  predicate KeysMatch(kept: Record, candidate: Record, keys: seq<string>) {
    forall k :: 0 <= k < |keys| ==> StrictEq(Get(kept, keys[k]), Get(candidate, keys[k]))
  }

  predicate MatchesSome(unique: seq<Record>, candidate: Record, keys: seq<string>) {
    exists i :: 0 <= i < |unique| && KeysMatch(unique[i], candidate, keys)
  }

  /** The records that survive, in their original order. */
  function Unique(s: seq<Record>, keys: seq<string>): seq<Record> {
    if s == [] then []
    else
      var u := Unique(s[..|s| - 1], keys);
      if MatchesSome(u, s[|s| - 1], keys) then u else u + [s[|s| - 1]]
  }

  /** A string of `n` letters x, as `"x".repeat(n)`. */
  function Xs(n: nat): (r: string)
    ensures |r| == n && forall k :: 0 <= k < n ==> r[k] == 'x'
  {
    seq(n, _ => 'x')
  }

  /** The source's loops: for each record, scan the kept ones; for each kept
      one, build a string with one `x` per matching key and compare it with
      one `x` per key field. */
  method RemoveDuplicates(generatedData: seq<Record>, keyFields: seq<string>) returns (unique: seq<Record>)
    ensures unique == Unique(generatedData, keyFields)
  {
    unique := [];
    var keys := Xs(|keyFields|);
    var insert := true;
    var e := 0;
    while e < |generatedData|
      invariant 0 <= e <= |generatedData|
      invariant unique == Unique(generatedData[..e], keyFields)
      invariant insert
    {
      var element := generatedData[e];
      var i := 0;
      while i < |unique|
        invariant 0 <= i <= |unique|
        invariant insert
        invariant forall j :: 0 <= j < i ==> !KeysMatch(unique[j], element, keyFields)
      {
        var keyMatch := "";
        var k := 0;
        while k < |keyFields|
          invariant 0 <= k <= |keyFields|
          invariant keyMatch == Xs(|keyMatch|) && |keyMatch| <= k
          invariant |keyMatch| == k <==> KeysMatch(unique[i], element, keyFields[..k])
        {
          if StrictEq(Get(unique[i], keyFields[k]), Get(element, keyFields[k])) {
            keyMatch := keyMatch + "x";
          }
          k := k + 1;
        }
        assert keyFields[..k] == keyFields;
        if keyMatch == keys {
          insert := false;
          break;
        }
        i := i + 1;
      }
      assert generatedData[..e + 1][..e] == generatedData[..e];
      if insert {
        unique := unique + [element];
      }
      insert := true;
      e := e + 1;
    }
    assert generatedData[..e] == generatedData;
  }

  // ------------------------------------------------------------ properties

  /** Never more records out than in. */
  lemma {:induction false} UniqueShorter(s: seq<Record>, keys: seq<string>)
    ensures |Unique(s, keys)| <= |s|
    decreases |s|
  {
    if s != [] {
      UniqueShorter(s[..|s| - 1], keys);
    }
  }

  /** `idx` picks `r` out of `s` at strictly increasing positions. */
  ghost predicate SubsequenceAt(r: seq<Record>, s: seq<Record>, idx: seq<nat>) {
    && |idx| == |r|
    && (forall k :: 0 <= k < |idx| ==> idx[k] < |s| && r[k] == s[idx[k]])
    && (forall k, l :: 0 <= k < l < |idx| ==> idx[k] < idx[l])
  }

  /** The survivors are a subsequence of the input, in input order. */
  lemma {:induction false} UniqueIsSubsequence(s: seq<Record>, keys: seq<string>) returns (idx: seq<nat>)
    ensures SubsequenceAt(Unique(s, keys), s, idx)
    decreases |s|
  {
    if s == [] {
      idx := [];
    } else {
      var init, last := s[..|s| - 1], s[|s| - 1];
      var before := UniqueIsSubsequence(init, keys);
      var u := Unique(init, keys);
      if MatchesSome(u, last, keys) {
        idx := before;
        assert Unique(s, keys) == u;
        forall k | 0 <= k < |idx| ensures idx[k] < |s| && u[k] == s[idx[k]] {
          assert init[before[k]] == s[before[k]];
        }
      } else {
        idx := before + [|s| - 1];
        var r := u + [last];
        assert Unique(s, keys) == r;
        forall k | 0 <= k < |idx| ensures idx[k] < |s| && r[k] == s[idx[k]] {
          if k < |before| {
            assert init[before[k]] == s[before[k]];
          }
        }
        forall k, l | 0 <= k < l < |idx| ensures idx[k] < idx[l] {
          if l == |before| {
            assert before[k] < |init|;
          }
        }
      }
    }
  }

  /** No survivor matches an earlier survivor on all keys. */
  ghost predicate Distinct(r: seq<Record>, keys: seq<string>) {
    forall i, j :: 0 <= i < j < |r| ==> !KeysMatch(r[i], r[j], keys)
  }

  lemma {:induction false} UniqueDistinct(s: seq<Record>, keys: seq<string>)
    ensures Distinct(Unique(s, keys), keys)
    decreases |s|
  {
    if s != [] {
      var init := s[..|s| - 1];
      UniqueDistinct(init, keys);
      var u := Unique(init, keys);
      if !MatchesSome(u, s[|s| - 1], keys) {
        var r := u + [s[|s| - 1]];
        forall i, j | 0 <= i < j < |r| ensures !KeysMatch(r[i], r[j], keys) {
          if j == |u| {
            assert !KeysMatch(u[i], s[|s| - 1], keys);
          }
        }
      }
    }
  }

  /** The survivors of a prefix are a prefix of the survivors. */
  lemma {:induction false} UniquePrefix(s: seq<Record>, keys: seq<string>, n: nat)
    requires n <= |s|
    ensures Unique(s[..n], keys) <= Unique(s, keys)
    decreases |s|
  {
    if n < |s| {
      assert s[..n] == s[..|s| - 1][..n];
      UniquePrefix(s[..|s| - 1], keys, n);
    } else {
      assert s[..n] == s;
    }
  }

  /** Every input record is either kept, right after the survivors of the
      records before it, or dropped because it matches one of those earlier
      survivors on all keys. */
  lemma UniqueCovers(s: seq<Record>, keys: seq<string>, i: nat)
    requires i < |s|
    ensures var before := Unique(s[..i], keys);
            || (before + [s[i]] <= Unique(s, keys) && !MatchesSome(before, s[i], keys))
            || (before <= Unique(s, keys) && MatchesSome(before, s[i], keys))
  {
    assert s[..i + 1][..i] == s[..i];
    UniquePrefix(s, keys, i + 1);
  }

  /** A list with no matching pair is left as it is. */
  lemma {:induction false} UniqueOfDistinct(r: seq<Record>, keys: seq<string>)
    requires Distinct(r, keys)
    ensures Unique(r, keys) == r
    decreases |r|
  {
    if r != [] {
      var init := r[..|r| - 1];
      assert Distinct(init, keys);
      UniqueOfDistinct(init, keys);
      assert !MatchesSome(init, r[|r| - 1], keys) by {
        forall i | 0 <= i < |init| ensures !KeysMatch(init[i], r[|r| - 1], keys) {
          assert init[i] == r[i];
        }
      }
    }
  }

  /** De-duplicating twice is de-duplicating once. */
  lemma UniqueIdempotent(s: seq<Record>, keys: seq<string>)
    ensures Unique(Unique(s, keys), keys) == Unique(s, keys)
  {
    UniqueDistinct(s, keys);
    UniqueOfDistinct(Unique(s, keys), keys);
  }

  /** With no key fields every record matches every other, so at most the
      first survives. */
  lemma UniqueNoKeys(s: seq<Record>)
    ensures |Unique(s, [])| <= 1
    ensures s != [] ==> Unique(s, []) == [s[0]]
  {
    UniqueDistinct(s, []);
    var r := Unique(s, []);
    if |r| > 1 {
      assert KeysMatch(r[0], r[1], []);
      assert false;
    }
    if s != [] {
      var idx := UniqueIsSubsequence(s, []);
      UniquePrefix(s, [], 1);
      assert s[..1][..0] == [];
      assert Unique(s[..1], []) == [s[0]];
    }
  }
}
