/**
 * API spec lists: the microservice references a workload resolves to, and
 * the merge that folds one resolved list into the running complete list
 * while leaving out exact duplicates.
 */
module SpecLists {

  /** A microservice a workload depends on, as the workload resolver returns it. */
  datatype APISpec = APISpec(specRef: string, org: string, version: string, exclusiveAccess: bool, arch: string)

  /** What makes two API specs exact duplicates: the same reference, organization and version. */
  datatype SpecKey = SpecKey(specRef: string, org: string, version: string)

  function Key(a: APISpec): SpecKey {
    SpecKey(a.specRef, a.org, a.version)
  }

  function Keys(s: seq<APISpec>): set<SpecKey> {
    set a | a in s :: Key(a)
  }

  predicate NoExactDuplicates(s: seq<APISpec>) {
    forall i, j :: 0 <= i < j < |s| ==> Key(s[i]) != Key(s[j])
  }

  /** The entries of incoming, in order, whose key base does not already hold. */
  function Novel(base: seq<APISpec>, incoming: seq<APISpec>): seq<APISpec> {
    if incoming == [] then []
    else (if Key(incoming[0]) in Keys(base) then [] else [incoming[0]]) + Novel(base, incoming[1..])
  }

  lemma {:induction false} NovelDrawsFromIncoming(base: seq<APISpec>, incoming: seq<APISpec>)
    ensures forall a :: a in Novel(base, incoming) ==> a in incoming && Key(a) !in Keys(base)
  {
    if incoming != [] {
      NovelDrawsFromIncoming(base, incoming[1..]);
      assert forall a :: a in incoming[1..] ==> a in incoming;
    }
  }

  lemma KeysAppend(a: seq<APISpec>, b: seq<APISpec>)
    ensures Keys(a + b) == Keys(a) + Keys(b)
  {
    forall k | k in Keys(a + b) ensures k in Keys(a) + Keys(b) {
      var x :| x in a + b && Key(x) == k;
    }
    forall k | k in Keys(a) + Keys(b) ensures k in Keys(a + b) {
      if k in Keys(a) {
        var x :| x in a && Key(x) == k;
        assert x in a + b;
      } else {
        var x :| x in b && Key(x) == k;
        assert x in a + b;
      }
    }
  }

  lemma {:induction false} NovelKeys(base: seq<APISpec>, incoming: seq<APISpec>)
    ensures Keys(base) + Keys(Novel(base, incoming)) == Keys(base) + Keys(incoming)
  {
    if incoming != [] {
      var x, tail := incoming[0], incoming[1..];
      NovelKeys(base, tail);
      var head := if Key(x) in Keys(base) then [] else [x];
      var n := Novel(base, tail);
      assert Novel(base, incoming) == head + n;
      assert incoming == [x] + tail;
      KeysAppend([x], tail);
      KeysAppend(head, n);
      assert Keys([x]) == {Key(x)};
      assert Keys(head) <= {Key(x)};
      assert Key(x) !in Keys(base) ==> Keys(head) == {Key(x)};
    }
  }

  lemma NoExactDuplicatesTail(s: seq<APISpec>)
    requires s != [] && NoExactDuplicates(s)
    ensures NoExactDuplicates(s[1..])
  {
    forall i, j | 0 <= i < j < |s[1..]| ensures Key(s[1..][i]) != Key(s[1..][j]) {
      assert s[1..][i] == s[i + 1] && s[1..][j] == s[j + 1];
    }
  }

  lemma NoExactDuplicatesCons(x: APISpec, n: seq<APISpec>)
    requires NoExactDuplicates(n)
    requires forall a :: a in n ==> Key(a) != Key(x)
    ensures NoExactDuplicates([x] + n)
  {
    var r := [x] + n;
    forall i, j | 0 <= i < j < |r| ensures Key(r[i]) != Key(r[j]) {
      if i == 0 {
        assert r[j] == n[j - 1];
      } else {
        assert r[i] == n[i - 1] && r[j] == n[j - 1];
      }
    }
  }

  lemma {:induction false} NovelNoExactDuplicates(base: seq<APISpec>, incoming: seq<APISpec>)
    requires NoExactDuplicates(incoming)
    ensures NoExactDuplicates(Novel(base, incoming))
  {
    if incoming != [] {
      var x, tail := incoming[0], incoming[1..];
      NoExactDuplicatesTail(incoming);
      NovelNoExactDuplicates(base, tail);
      NovelDrawsFromIncoming(base, tail);
      var n := Novel(base, tail);
      if Key(x) in Keys(base) {
        assert Novel(base, incoming) == n;
      } else {
        assert Novel(base, incoming) == [x] + n;
        forall a | a in n ensures Key(a) != Key(x) {
          var j :| 0 <= j < |tail| && tail[j] == a;
          assert incoming[j + 1] == a;
        }
        NoExactDuplicatesCons(x, n);
      }
    }
  }

  /**
   * APISpecList.MergeWith as described for the configstate resolver: base,
   * followed by every entry of incoming that is not an exact duplicate of
   * an entry of base.
   */
  function MergeWith(base: seq<APISpec>, incoming: seq<APISpec>): (merged: seq<APISpec>)
    ensures |merged| >= |base| && merged[..|base|] == base
    ensures forall a :: a in merged[|base|..] ==> a in incoming && Key(a) !in Keys(base)
    ensures Keys(merged) == Keys(base) + Keys(incoming)
    ensures NoExactDuplicates(base) && NoExactDuplicates(incoming) ==> NoExactDuplicates(merged)
  {
    NovelDrawsFromIncoming(base, incoming);
    NovelKeys(base, incoming);
    var n := Novel(base, incoming);
    var merged := base + n;
    assert merged[|base|..] == n;
    KeysAppend(base, n);
    assert NoExactDuplicates(base) && NoExactDuplicates(incoming) ==> NoExactDuplicates(merged) by {
      if NoExactDuplicates(base) && NoExactDuplicates(incoming) {
        NovelNoExactDuplicates(base, incoming);
        forall i, j | 0 <= i < j < |merged| ensures Key(merged[i]) != Key(merged[j]) {
          if j >= |base| {
            assert merged[j] in n;
            if i < |base| {
              assert Key(merged[i]) in Keys(base);
            } else {
              assert merged[i] == n[i - |base|] && merged[j] == n[j - |base|];
            }
          }
        }
      }
    }
    merged
  }

  lemma {:induction false} NovelOfKnownKeys(base: seq<APISpec>, incoming: seq<APISpec>)
    requires Keys(incoming) <= Keys(base)
    ensures Novel(base, incoming) == []
  {
    if incoming != [] {
      assert Key(incoming[0]) in Keys(incoming);
      assert Keys(incoming[1..]) <= Keys(incoming) by {
        forall k | k in Keys(incoming[1..]) ensures k in Keys(incoming) {
          var a :| a in incoming[1..] && Key(a) == k;
          assert a in incoming;
        }
      }
      NovelOfKnownKeys(base, incoming[1..]);
    }
  }

  /** Merging a list with itself gives the list back. */
  lemma MergeWithSelf(s: seq<APISpec>)
    ensures MergeWith(s, s) == s
  {
    NovelOfKnownKeys(s, s);
  }

}
