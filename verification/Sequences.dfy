/** Moving one element of a sequence, as cache.c and memory.c do in their linked lists. */
module Sequences {
  function ToHead<T>(s: seq<T>, i: nat): seq<T>
    requires i < |s|
  {
    [s[i]] + s[..i] + s[i + 1..]
  }

  function ToTail<T>(s: seq<T>, i: nat): seq<T>
    requires i < |s|
  {
    s[..i] + s[i + 1..] + [s[i]]
  }

  ghost predicate Distinct<T>(s: seq<T>) {
    forall i, j :: 0 <= i < j < |s| ==> s[i] != s[j]
  }

  function Cut<T>(s: seq<T>, i: nat): seq<T>
    requires i < |s|
  {
    s[..i] + s[i + 1..]
  }

  lemma MoveAt<T>(s: seq<T>, i: nat)
    requires i < |s|
    ensures |ToHead(s, i)| == |s| == |ToTail(s, i)|
    ensures forall j {:trigger ToHead(s, i)[j]} :: 0 <= j < |s|
              ==> ToHead(s, i)[j] == s[if j == 0 then i else if j <= i then j - 1 else j]
    ensures forall j {:trigger ToTail(s, i)[j]} :: 0 <= j < |s|
              ==> ToTail(s, i)[j] == s[if j == |s| - 1 then i else if j < i then j else j + 1]
  {
  }

  lemma CutAt<T>(s: seq<T>, i: nat)
    requires Distinct(s) && i < |s|
    ensures Distinct(Cut(s, i)) && |Cut(s, i)| == |s| - 1
    ensures forall j :: 0 <= j < |s| - 1 ==> Cut(s, i)[j] == if j < i then s[j] else s[j + 1]
  {
  }

  lemma CutOut<T>(s: seq<T>, i: nat)
    requires Distinct(s) && i < |s|
    ensures s[i] !in Cut(s, i)
    ensures ToHead(s, i) == [s[i]] + Cut(s, i) && ToTail(s, i) == Cut(s, i) + [s[i]]
    ensures (set b | b in ToHead(s, i)) == (set b | b in s) == (set b | b in ToTail(s, i))
    ensures forall b :: b in Cut(s, i) ==> b in s
  {
    var r := Cut(s, i);
    forall b | b in s && b != s[i]
      ensures b in r
    {
      var j :| 0 <= j < |s| && s[j] == b;
      assert b == r[if j < i then j else j - 1];
    }
  }

  lemma CutKeeps<T>(s: seq<T>, i: nat, b: T)
    requires Distinct(s) && i < |s|
    ensures b in Cut(s, i) <==> b in s && b != s[i]
  {
    CutOut(s, i);
    if b in s && b != s[i] {
      var j :| 0 <= j < |s| && s[j] == b;
      assert b == Cut(s, i)[if j < i then j else j - 1];
    }
  }

  lemma CutHas<T>(s: seq<T>, i: nat, j: nat)
    requires i < |s| && j < |s| && j != i
    ensures s[j] in Cut(s, i)
  {
    assert Cut(s, i)[if j < i then j else j - 1] == s[j];
  }
}
