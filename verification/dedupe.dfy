/** Within-run deduplication (`dedupe`, fetch_graduate_jobs.py:104-115): the
    first record carrying each identity key is kept, later ones are dropped.

    The specification functions and lemmas take the key as a parameter
    `key`; what they state holds for any key, and the `Dedupe` method uses
    them with `IdentityKey`. */
module Deduplicator {
  import opened Text
  import opened Records

  /** The keys of a sequence of records. */
  function KeysOf(s: seq<Job>, key: Job -> string): set<string> {
    if s == [] then {} else KeysOf(s[..|s| - 1], key) + {key(s[|s| - 1])}
  }

  /** A key is among the keys of `s` iff some record of `s` carries it. */
  lemma {:induction false} KeysOfMembership(s: seq<Job>, key: Job -> string, k: string)
    ensures k in KeysOf(s, key) <==> exists j :: 0 <= j < |s| && key(s[j]) == k
  {
    if s != [] {
      var p := s[..|s| - 1];
      KeysOfMembership(p, key, k);
      assert forall j :: 0 <= j < |p| ==> p[j] == s[j];
    }
  }

  /** No two records of `s` share a key. */
  ghost predicate UniqueKeys(s: seq<Job>, key: Job -> string) {
    forall i, j :: 0 <= i < j < |s| ==> key(s[i]) != key(s[j])
  }

  /** Record `i` of `s` is the first with its key. */
  ghost predicate FirstOfKey(s: seq<Job>, key: Job -> string, i: int)
    requires 0 <= i < |s|
  {
    forall j :: 0 <= j < i ==> key(s[j]) != key(s[i])
  }

  /** What `dedupe` returns, built the way its loop builds it: walk the
      records in order and append each one whose key has not been seen.
      It never lengthens the list and keeps every key of the input. */
  function Deduped(jobs: seq<Job>, key: Job -> string): (out: seq<Job>)
    ensures |out| <= |jobs|
    ensures KeysOf(out, key) == KeysOf(jobs, key)
  {
    if jobs == [] then []
    else
      var kept := Deduped(jobs[..|jobs| - 1], key);
      var last := jobs[|jobs| - 1];
      if key(last) in KeysOf(kept, key) then kept else kept + [last]
  }

  /** `dedupe`: a `seen` set and an `out` list updated record by record. */
  method Dedupe(jobs: seq<Job>) returns (out: seq<Job>)
    ensures out == Deduped(jobs, IdentityKey)
    ensures UniqueKeys(out, IdentityKey) && |out| <= |jobs|
  {
    var seen: set<string> := {};
    out := [];
    for i := 0 to |jobs|
      invariant out == Deduped(jobs[..i], IdentityKey)
      invariant seen == KeysOf(out, IdentityKey)
    {
      DedupedStep(jobs, IdentityKey, i);
      var key := IdentityKey(jobs[i]);
      if key in seen {
        continue;
      }
      seen := seen + {key};
      out := out + [jobs[i]];
    }
    assert jobs[..|jobs|] == jobs;
    DedupedUniqueKeys(jobs, IdentityKey);
  }

  /** One more record: it is appended iff its key has not been kept yet. */
  lemma DedupedStep(s: seq<Job>, key: Job -> string, i: nat)
    requires i < |s|
    ensures var kept := Deduped(s[..i], key);
      Deduped(s[..i + 1], key) == if key(s[i]) in KeysOf(kept, key) then kept else kept + [s[i]]
  {
    assert s[..i + 1][..i] == s[..i];
  }

  /** The output contains no two records with the same key. */
  lemma {:induction false} DedupedUniqueKeys(jobs: seq<Job>, key: Job -> string)
    ensures UniqueKeys(Deduped(jobs, key), key)
  {
    if jobs != [] {
      var kept := Deduped(jobs[..|jobs| - 1], key);
      DedupedUniqueKeys(jobs[..|jobs| - 1], key);
      KeysOfMembership(kept, key, key(jobs[|jobs| - 1]));
    }
  }

  /** The indices `i < n` of `s` whose record is the first with its key, in
      increasing order. */
  ghost function FirstIndices(s: seq<Job>, key: Job -> string, n: nat): seq<nat>
    requires n <= |s|
  {
    if n == 0 then []
    else FirstIndices(s, key, n - 1) + (if FirstOfKey(s, key, n - 1) then [n - 1] else [])
  }

  /** `idx` lists indices below `n` in increasing order. */
  ghost predicate IncreasingBelow(idx: seq<nat>, n: nat) {
    && (forall k :: 0 <= k < |idx| ==> idx[k] < n)
    && (forall k, l :: 0 <= k < l < |idx| ==> idx[k] < idx[l])
  }

  /** FirstIndices(s, key, n) lists indices below `n` in increasing order. */
  lemma {:induction false} FirstIndicesIncreasing(s: seq<Job>, key: Job -> string, n: nat)
    requires n <= |s|
    ensures IncreasingBelow(FirstIndices(s, key, n), n)
  {
    if n > 0 {
      FirstIndicesIncreasing(s, key, n - 1);
      var idx := FirstIndices(s, key, n - 1);
      if FirstOfKey(s, key, n - 1) {
        var idx' := idx + [n - 1];
        assert FirstIndices(s, key, n) == idx';
        forall k | 0 <= k < |idx'|
          ensures idx'[k] < n
        {
          if k < |idx| {
            assert idx'[k] == idx[k];
          }
        }
        forall k, l | 0 <= k < l < |idx'|
          ensures idx'[k] < idx'[l]
        {
          assert idx'[k] == idx[k];
          if l < |idx| {
            assert idx'[l] == idx[l];
          }
        }
      } else {
        assert FirstIndices(s, key, n) == idx;
      }
    }
  }

  /** An index below `n` is in FirstIndices(s, key, n) iff its record is the
      first with its key. */
  lemma {:induction false} FirstIndicesMembers(s: seq<Job>, key: Job -> string, n: nat)
    requires n <= |s|
    ensures forall i :: 0 <= i < n ==> (i in FirstIndices(s, key, n) <==> FirstOfKey(s, key, i))
  {
    if n > 0 {
      FirstIndicesMembers(s, key, n - 1);
      FirstIndicesIncreasing(s, key, n - 1);
      var idx := FirstIndices(s, key, n - 1);
      assert forall k :: 0 <= k < |idx| ==> idx[k] != n - 1;
      forall i | 0 <= i < n
        ensures i in FirstIndices(s, key, n) <==> FirstOfKey(s, key, i)
      {
        if i < n - 1 {
          assert i in FirstIndices(s, key, n) <==> i in idx;
        }
      }
    }
  }

  /** Record `i` is dropped exactly when its key is already among those kept
      from the records before it. */
  lemma SeenIffNotFirst(s: seq<Job>, key: Job -> string, i: nat)
    requires i < |s|
    ensures key(s[i]) in KeysOf(Deduped(s[..i], key), key) <==> !FirstOfKey(s, key, i)
  {
    var p := s[..i];
    KeysOfMembership(p, key, key(s[i]));
    assert forall j :: 0 <= j < i ==> p[j] == s[j];
  }

  /** `out` is the records of `s` at the indices `idx`, all below `n`. */
  ghost predicate SelectsAt(out: seq<Job>, s: seq<Job>, idx: seq<nat>, n: nat) {
    && |out| == |idx|
    && (forall k :: 0 <= k < |idx| ==> idx[k] < n && idx[k] < |s| && out[k] == s[idx[k]])
  }

  /** Keeping record `n - 1` extends a selection by that index. */
  lemma SelectsAtExtend(out: seq<Job>, s: seq<Job>, idx: seq<nat>, n: nat)
    requires 0 < n <= |s| && SelectsAt(out, s, idx, n - 1)
    ensures SelectsAt(out + [s[n - 1]], s, idx + [n - 1], n)
  {
    var out', idx' := out + [s[n - 1]], idx + [n - 1];
    forall k | 0 <= k < |idx'|
      ensures idx'[k] < n && idx'[k] < |s| && out'[k] == s[idx'[k]]
    {
      if k < |idx| {
        assert out'[k] == out[k] && idx'[k] == idx[k];
      }
    }
  }

  /** One more record: `Deduped` keeps it exactly when it is the first with
      its key. */
  lemma DedupedPrefixStep(s: seq<Job>, key: Job -> string, n: nat)
    requires 0 < n <= |s|
    ensures Deduped(s[..n], key)
      == Deduped(s[..n - 1], key) + (if FirstOfKey(s, key, n - 1) then [s[n - 1]] else [])
  {
    DedupedStep(s, key, n - 1);
    SeenIffNotFirst(s, key, n - 1);
  }

  /** Deduplicating the first `n` records yields the records of `s` at
      FirstIndices(s, key, n). */
  lemma {:induction false} DedupedPrefixSelects(s: seq<Job>, key: Job -> string, n: nat)
    requires n <= |s|
    ensures SelectsAt(Deduped(s[..n], key), s, FirstIndices(s, key, n), n)
  {
    if n > 0 {
      DedupedPrefixSelects(s, key, n - 1);
      DedupedPrefixStep(s, key, n);
      if FirstOfKey(s, key, n - 1) {
        SelectsAtExtend(Deduped(s[..n - 1], key), s, FirstIndices(s, key, n - 1), n);
      }
    }
  }

  /** `dedupe` keeps exactly the first record of each key, unchanged and in
      input order: the output is the subsequence of the input at the
      increasing indices `idx`, and an index is among them iff no earlier
      record shares its key. */
  lemma DedupedSelectsFirstOccurrences(jobs: seq<Job>, key: Job -> string)
    ensures var out, idx := Deduped(jobs, key), FirstIndices(jobs, key, |jobs|);
      && |out| == |idx|
      && (forall k :: 0 <= k < |idx| ==> idx[k] < |jobs| && out[k] == jobs[idx[k]])
      && (forall k, l :: 0 <= k < l < |idx| ==> idx[k] < idx[l])
      && (forall i :: 0 <= i < |jobs| ==> (i in idx <==> FirstOfKey(jobs, key, i)))
  {
    DedupedPrefixSelects(jobs, key, |jobs|);
    FirstIndicesIncreasing(jobs, key, |jobs|);
    FirstIndicesMembers(jobs, key, |jobs|);
    assert jobs[..|jobs|] == jobs;
  }

  /** Every record of the output is a record of the input. */
  lemma {:induction false} DedupedMembers(jobs: seq<Job>, key: Job -> string)
    ensures forall r :: r in Deduped(jobs, key) ==> r in jobs
  {
    if jobs != [] {
      var p := jobs[..|jobs| - 1];
      DedupedMembers(p, key);
      assert forall r :: r in p ==> r in jobs;
    }
  }

  /** A list whose keys are already distinct passes through unchanged. */
  lemma {:induction false} DedupedOfUnique(s: seq<Job>, key: Job -> string)
    requires UniqueKeys(s, key)
    ensures Deduped(s, key) == s
  {
    if s != [] {
      var p := s[..|s| - 1];
      DedupedOfUnique(p, key);
      KeysOfMembership(p, key, key(s[|s| - 1]));
      assert p + [s[|s| - 1]] == s;
    }
  }

  /** Deduplicating twice is the same as deduplicating once. */
  lemma DedupedIdempotent(jobs: seq<Job>, key: Job -> string)
    ensures Deduped(Deduped(jobs, key), key) == Deduped(jobs, key)
  {
    DedupedUniqueKeys(jobs, key);
    DedupedOfUnique(Deduped(jobs, key), key);
  }

  /** With distinct keys there are as many keys as records. */
  lemma {:induction false} UniqueKeysCount(s: seq<Job>, key: Job -> string)
    requires UniqueKeys(s, key)
    ensures |KeysOf(s, key)| == |s|
  {
    if s != [] {
      var p := s[..|s| - 1];
      UniqueKeysCount(p, key);
      KeysOfMembership(p, key, key(s[|s| - 1]));
    }
  }

  /** The output has one record per distinct key of the input. */
  lemma DedupedLength(jobs: seq<Job>, key: Job -> string)
    ensures |Deduped(jobs, key)| == |KeysOf(jobs, key)| <= |jobs|
  {
    DedupedUniqueKeys(jobs, key);
    UniqueKeysCount(Deduped(jobs, key), key);
  }

  /** Two sources producing the same link: only the first-seen record, with
      its own title, survives. */
  lemma SameLinkKeepsFirst(first: Job, second: Job)
    requires Trim(LinkOrEmpty(first.link)) == Trim(LinkOrEmpty(second.link)) != ""
    ensures Deduped([first, second], IdentityKey) == [first]
  {
    SameLinkSameKey(first, second);
    assert [first, second][..1] == [first];
    assert [first][..0] == [];
  }
}
