/**
 * The service name the configstate API gives a service it creates for a
 * microservice: the part of the URL after its second '/' (for a URL with
 * a scheme this includes the host), less one trailing '/', with its other
 * slashes turned into dashes, then the organization and the version, all
 * joined by underscores.
 * Go's strings.SplitN, strings.TrimSuffix and strings.Replace are modelled
 * here for a one-character separator, the only form the name builder uses.
 */
module ServiceNames {

  /** Number of occurrences of c in s. */
  function Count(s: string, c: char): nat {
    if s == [] then 0 else (if s[0] == c then 1 else 0) + Count(s[1..], c)
  }

  lemma {:induction false} CountAppend(a: string, b: string, c: char)
    ensures Count(a + b, c) == Count(a, c) + Count(b, c)
  {
    if a == [] {
      assert a + b == b;
    } else {
      assert (a + b)[1..] == a[1..] + b;
      CountAppend(a[1..], b, c);
    }
  }

  lemma {:induction false} CountAbsent(s: string, c: char)
    requires c !in s
    ensures Count(s, c) == 0
  {
    if s != [] {
      assert s[0] != c;
      assert forall x :: x in s[1..] ==> x in s;
      CountAbsent(s[1..], c);
    }
  }

  /** Position of the first c in s, or |s| when s holds none. */
  function IndexOf(s: string, c: char): (i: nat)
    ensures i <= |s|
    ensures i < |s| ==> s[i] == c
    ensures forall k :: 0 <= k < i ==> s[k] != c
  {
    if s == [] then 0 else if s[0] == c then 0 else 1 + IndexOf(s[1..], c)
  }

  /** strings.Join(pieces, string(sep)). */
  function Join(pieces: seq<string>, sep: char): string {
    if |pieces| == 0 then ""
    else if |pieces| == 1 then pieces[0]
    else pieces[0] + [sep] + Join(pieces[1..], sep)
  }

  lemma JoinCons(head: string, rest: seq<string>, sep: char)
    requires |rest| >= 1
    ensures Join([head] + rest, sep) == head + [sep] + Join(rest, sep)
  {
    assert ([head] + rest)[1..] == rest;
  }

  /**
   * strings.SplitN(s, string(sep), n) for n >= 1: the pieces of s between
   * separators, at most n of them, the last one holding the unsplit rest.
   */
  function SplitN(s: string, sep: char, n: nat): (pieces: seq<string>)
    requires n >= 1
    ensures 1 <= |pieces| <= n
    decreases n
  {
    if n == 1 then [s]
    else
      var i := IndexOf(s, sep);
      if i == |s| then [s]
      else [s[..i]] + SplitN(s[i + 1..], sep, n - 1)
  }

  /**
   * Every piece but the last is free of the separator, and so is the last
   * one when the cap was not reached.
   */
  lemma {:induction false} SplitNPieces(s: string, sep: char, n: nat)
    requires n >= 1
    ensures var pieces := SplitN(s, sep, n);
            && (forall k :: 0 <= k < |pieces| - 1 ==> sep !in pieces[k])
            && (|pieces| < n ==> sep !in pieces[|pieces| - 1])
    decreases n, 1
  {
    if n > 1 && IndexOf(s, sep) < |s| {
      SplitNPiecesAtSeparator(s, sep, n);
    }
  }

  lemma {:induction false} SplitNPiecesAtSeparator(s: string, sep: char, n: nat)
    requires n > 1 && IndexOf(s, sep) < |s|
    ensures var pieces := SplitN(s, sep, n);
            && (forall k :: 0 <= k < |pieces| - 1 ==> sep !in pieces[k])
            && (|pieces| < n ==> sep !in pieces[|pieces| - 1])
    decreases n, 0
  {
    var i := IndexOf(s, sep);
    SplitNAtSeparator(s, sep, n);
    SplitNPieces(s[i + 1..], sep, n - 1);
    IndexOfPrefix(s, sep);
    PiecesCons(s[..i], SplitN(s[i + 1..], sep, n - 1), sep, n);
  }

  /** The separator-freedom of SplitNPieces carries over to one more piece in front. */
  lemma PiecesCons(head: string, rest: seq<string>, sep: char, n: nat)
    requires n > 1 && |rest| >= 1
    requires sep !in head
    requires forall k :: 0 <= k < |rest| - 1 ==> sep !in rest[k]
    requires |rest| < n - 1 ==> sep !in rest[|rest| - 1]
    ensures var pieces := [head] + rest;
            && (forall k :: 0 <= k < |pieces| - 1 ==> sep !in pieces[k])
            && (|pieces| < n ==> sep !in pieces[|pieces| - 1])
  {
    var pieces := [head] + rest;
    forall k | 0 < k < |pieces| - 1
      ensures sep !in pieces[k]
    {
      assert pieces[k] == rest[k - 1];
    }
    assert pieces[|pieces| - 1] == rest[|rest| - 1];
  }

  lemma IndexOfPrefix(s: string, c: char)
    ensures c !in s[..IndexOf(s, c)]
  {
  }

  /** Joining the pieces with the separator gives back the split string. */
  lemma {:induction false} SplitNJoin(s: string, sep: char, n: nat)
    requires n >= 1
    ensures Join(SplitN(s, sep, n), sep) == s
    decreases n, 1
  {
    if n > 1 && IndexOf(s, sep) < |s| {
      SplitNJoinAtSeparator(s, sep, n);
    }
  }

  /** SplitNJoin when the split happens: the first piece, the separator, then the rest joined back. */
  lemma {:induction false} SplitNJoinAtSeparator(s: string, sep: char, n: nat)
    requires n > 1 && IndexOf(s, sep) < |s|
    ensures Join(SplitN(s, sep, n), sep) == s
    decreases n, 0
  {
    var i := IndexOf(s, sep);
    var rest := SplitN(s[i + 1..], sep, n - 1);
    SplitNAtSeparator(s, sep, n);
    JoinCons(s[..i], rest, sep);
    SplitNJoin(s[i + 1..], sep, n - 1);
    AroundIndex(s, i);
  }

  /** The split at the first separator, one level down. */
  lemma SplitNAtSeparator(s: string, sep: char, n: nat)
    requires n > 1 && IndexOf(s, sep) < |s|
    ensures var i := IndexOf(s, sep);
            SplitN(s, sep, n) == [s[..i]] + SplitN(s[i + 1..], sep, n - 1)
  {
  }

  lemma AroundIndex(s: string, i: nat)
    requires i < |s|
    ensures s[..i] + [s[i]] + s[i + 1..] == s
  {
  }

  /** SplitN yields one piece more than there are separators, capped at n. */
  lemma {:induction false} SplitNLength(s: string, sep: char, n: nat)
    requires n >= 1
    ensures |SplitN(s, sep, n)| == if Count(s, sep) + 1 < n then Count(s, sep) + 1 else n
    decreases n
  {
    var i := IndexOf(s, sep);
    if i == |s| {
      CountAbsent(s, sep);
    } else if n > 1 {
      var head, rest := s[..i], s[i + 1..];
      assert s == head + ([sep] + rest);
      CountAppend(head, [sep] + rest, sep);
      CountAppend([sep], rest, sep);
      assert Count([sep], sep) == 1;
      CountAbsent(head, sep);
      assert Count(s, sep) == 1 + Count(rest, sep);
      SplitNLength(rest, sep, n - 1);
      assert SplitN(s, sep, n) == [head] + SplitN(rest, sep, n - 1);
    }
  }

  /** strings.TrimSuffix(s, string(c)): drops one trailing c, if any. */
  function TrimSuffix(s: string, c: char): (t: string)
    ensures s == t || s == t + [c]
    ensures s != t <==> |s| > 0 && s[|s| - 1] == c
  {
    if |s| > 0 && s[|s| - 1] == c then s[..|s| - 1] else s
  }

  /** strings.Replace(s, string(from), string(to), -1): every from becomes to. */
  function ReplaceAll(s: string, from: char, to: char): (r: string)
    ensures |r| == |s|
    ensures forall k :: 0 <= k < |r| ==> r[k] == (if s[k] == from then to else s[k])
  {
    if s == [] then []
    else [if s[0] == from then to else s[0]] + ReplaceAll(s[1..], from, to)
  }

  /**
   * The first part of a service name: the third piece of the URL split on
   * '/', without one trailing '/', with every other '/' made a '-'; empty
   * when the URL does not split into three pieces.
   */
  function ServicePath(msURL: string): (p: string)
    ensures '/' !in p
  {
    var pieces := SplitN(msURL, '/', 3);
    if |pieces| >= 3 then ReplaceAll(TrimSuffix(pieces[2], '/'), '/', '-') else ""
  }

  /** Position of the second '/' in s, or |s| when s holds fewer than two. */
  function SecondSlash(s: string): (j: nat)
    ensures j <= |s|
  {
    var i := IndexOf(s, '/');
    if i == |s| then |s| else i + 1 + IndexOf(s[i + 1..], '/')
  }

  /**
   * makeServiceName: path, organization and version joined by underscores.
   * The path is what follows the URL's second '/' (the host included, for
   * a URL with a scheme), less one trailing '/', with '/' made '-'.
   */
  function MakeServiceName(msURL: string, msOrg: string, msVersion: string): (name: string)
    ensures Count(msURL, '/') < 2 ==> name == "_" + msOrg + "_" + msVersion
    ensures var j := SecondSlash(msURL);
            j < |msURL| ==> name == ReplaceAll(TrimSuffix(msURL[j + 1..], '/'), '/', '-') + "_" + msOrg + "_" + msVersion
    ensures |name| >= |msOrg| + |msVersion| + 2
    ensures var p := name[..|name| - |msOrg| - |msVersion| - 2];
            '/' !in p && name == p + "_" + msOrg + "_" + msVersion
  {
    SplitNLength(msURL, '/', 3);
    ServicePathAtSecondSlash(msURL);
    var p := ServicePath(msURL);
    assert (p + "_" + msOrg + "_" + msVersion)[..|p|] == p;
    p + "_" + msOrg + "_" + msVersion
  }

  /** IndexOf finds the first occurrence. */
  lemma {:induction false} IndexOfIs(s: string, c: char, i: nat)
    requires i < |s| && s[i] == c
    requires forall k :: 0 <= k < i ==> s[k] != c
    ensures IndexOf(s, c) == i
  {
    if i > 0 {
      IndexOfIs(s[1..], c, i - 1);
    }
  }

  /** The three pieces of a URL split at its first two '/', at positions i < j. */
  lemma SplitAtTwoSlashes(msURL: string, i: nat, j: nat)
    requires i < j < |msURL|
    requires msURL[i] == '/' && msURL[j] == '/'
    requires forall k :: 0 <= k < j && k != i ==> msURL[k] != '/'
    ensures SplitN(msURL, '/', 3) == [msURL[..i], msURL[i + 1..j], msURL[j + 1..]]
  {
    IndexOfIs(msURL, '/', i);
    var rest := msURL[i + 1..];
    forall k | 0 <= k < j - (i + 1)
      ensures rest[k] != '/'
    {
      assert rest[k] == msURL[i + 1 + k];
    }
    IndexOfIs(rest, '/', j - (i + 1));
    SplitNAtSeparator(msURL, '/', 3);
    SplitNAtSeparator(rest, '/', 2);
    SlicesOfSuffix(msURL, i + 1, j);
    assert SplitN(msURL[j + 1..], '/', 1) == [msURL[j + 1..]];
    ThreePieces(msURL[..i], msURL[i + 1..j], msURL[j + 1..]);
  }

  lemma SlicesOfSuffix(s: string, a: nat, m: nat)
    requires a <= m < |s|
    ensures s[a..][..m - a] == s[a..m]
    ensures s[a..][m - a + 1..] == s[m + 1..]
  {
  }

  lemma ThreePieces(a: string, b: string, c: string)
    ensures [a] + ([b] + [c]) == [a, b, c]
  {
  }


  /**
   * With two '/' at positions i < j and none other before j, the path part
   * is what follows position j, less one trailing '/', slashes made dashes.
   */
  lemma ServicePathFollowsSecondSlash(msURL: string, i: nat, j: nat)
    requires i < j < |msURL|
    requires msURL[i] == '/' && msURL[j] == '/'
    requires forall k :: 0 <= k < j && k != i ==> msURL[k] != '/'
    ensures ServicePath(msURL) == ReplaceAll(TrimSuffix(msURL[j + 1..], '/'), '/', '-')
  {
    SplitAtTwoSlashes(msURL, i, j);
  }

  /** The path part is what follows the position SecondSlash finds, when it finds one. */
  lemma ServicePathAtSecondSlash(msURL: string)
    ensures var j := SecondSlash(msURL);
            j < |msURL| ==> ServicePath(msURL) == ReplaceAll(TrimSuffix(msURL[j + 1..], '/'), '/', '-')
  {
    var i := IndexOf(msURL, '/');
    if i < |msURL| {
      var rest := msURL[i + 1..];
      var m := IndexOf(rest, '/');
      if m < |rest| {
        var tail := msURL[SecondSlash(msURL) + 1..];
        assert SplitN(rest, '/', 2) == [rest[..m], tail] by {
          SplitNAtSeparator(rest, '/', 2);
          assert rest[m + 1..] == tail;
        }
        assert SplitN(msURL, '/', 3) == [msURL[..i], rest[..m], tail] by {
          SplitNAtSeparator(msURL, '/', 3);
        }
      }
    }
  }

  /** The path part is empty exactly when the URL holds fewer than two '/'. */
  lemma ServicePathEmptyWithoutTwoSlashes(msURL: string)
    ensures Count(msURL, '/') < 2 ==> ServicePath(msURL) == ""
    ensures Count(msURL, '/') >= 2 ==> |SplitN(msURL, '/', 3)| == 3
  {
    SplitNLength(msURL, '/', 3);
  }

}
