/** Concatenation of a list of lists, and cutting a list into chunks. */
module Concat {
  import opened Bytes

  function Flat<T>(ss: seq<seq<T>>): (s: seq<T>)
  {
    if ss == [] then [] else Flat(ss[..|ss| - 1]) + ss[|ss| - 1]
  }

  lemma {:induction false} FlatAppend<T>(a: seq<seq<T>>, b: seq<seq<T>>)
    ensures Flat(a + b) == Flat(a) + Flat(b)
    decreases |b|
  {
    if b == [] {
      assert a + b == a;
    } else {
      var n, ab := |b| - 1, a + b;
      FlatAppend(a, b[..n]);
      assert ab[..|ab| - 1] == a + b[..n] && ab[|ab| - 1] == b[n];
      assert (Flat(a) + Flat(b[..n])) + b[n] == Flat(a) + (Flat(b[..n]) + b[n]);
    }
  }

  lemma FlatOne<T>(s: seq<T>)
    ensures Flat([s]) == s
  {
    assert Flat<T>([]) + s == s;
  }

  /** The list before, at and after one member. */
  lemma FlatAround<T>(ss: seq<seq<T>>, j: nat)
    requires j < |ss|
    ensures Flat(ss) == Flat(ss[..j]) + ss[j] + Flat(ss[j + 1..])
  {
    hide Flat;
    var a, b := ss[..j + 1], ss[j + 1..];
    assert ss == a + b;
    FlatAppend(a, b);
    assert a == ss[..j] + [ss[j]];
    FlatStep(ss[..j], ss[j]);
  }

  lemma FlatStep<T>(ss: seq<seq<T>>, s: seq<T>)
    ensures Flat(ss + [s]) == Flat(ss) + s
  {
    assert (ss + [s])[..|ss|] == ss;
  }

  /** Where a member starts in the concatenation. */
  function Start<T>(ss: seq<seq<T>>, j: nat): (n: nat)
    requires j <= |ss|
  {
    |Flat(ss[..j])|
  }

  lemma StartZero<T>(ss: seq<seq<T>>)
    ensures Start(ss, 0) == 0
  {
  }

  lemma StartNext<T>(ss: seq<seq<T>>, j: nat)
    requires j < |ss|
    ensures Start(ss, j + 1) == Start(ss, j) + |ss[j]|
  {
    assert ss[..j + 1][..j] == ss[..j];
  }

  lemma StartEnd<T>(ss: seq<seq<T>>)
    ensures Start(ss, |ss|) == |Flat(ss)|
  {
    assert ss[..|ss|] == ss;
  }

  lemma FlatAt<T>(ss: seq<seq<T>>, j: nat, k: nat)
    requires j < |ss| && k < |ss[j]|
    ensures Start(ss, j) + k < |Flat(ss)| && Flat(ss)[Start(ss, j) + k] == ss[j][k]
  {
    FlatAround(ss, j);
  }

  lemma {:induction false} StartsInOrder<T>(ss: seq<seq<T>>, i: nat, j: nat)
    requires i < j <= |ss|
    ensures Start(ss, i) + |ss[i]| <= Start(ss, j)
  {
    assert ss[..j][..j - 1] == ss[..j - 1];
    if i < j - 1 { StartsInOrder(ss, i, j - 1); }
  }

  /** Members of a concatenation. */
  lemma {:induction false} FlatMembers<T>(ss: seq<seq<T>>, x: T)
    ensures x in Flat(ss) <==> exists j :: 0 <= j < |ss| && x in ss[j]
  {
    if ss != [] {
      var n := |ss| - 1;
      FlatMembers(ss[..n], x);
      if x in Flat(ss[..n]) {
        var j :| 0 <= j < n && x in ss[..n][j];
        assert x in ss[j];
      }
    }
  }

  // ---------- chunks ----------

  function Chunks<T>(s: seq<T>, size: nat): (ss: seq<seq<T>>)
    requires size > 0
    decreases |s|
  {
    if s == [] then []
    else
      var n := if size > |s| then |s| else size;
      [s[..n]] + Chunks(s[n..], size)
  }

  lemma {:induction false} FlatChunks<T>(s: seq<T>, size: nat)
    requires size > 0
    ensures Flat(Chunks(s, size)) == s
    ensures forall j :: 0 <= j < |Chunks(s, size)| ==> Chunks(s, size)[j] != []
    ensures s != [] ==> Chunks(s, size) != []
    decreases |s|
  {
    if s != [] {
      var n := if size > |s| then |s| else size;
      FlatChunks(s[n..], size);
      FlatAppend([s[..n]], Chunks(s[n..], size));
      FlatOne(s[..n]);
      assert s == s[..n] + s[n..];
    }
  }

  /** One turn of a loop that walks the list a chunk at a time. */
  lemma ChunkStep<T>(s: seq<T>, size: nat, i: nat, end: nat, done: seq<seq<T>>)
    requires size > 0 && i < |s| && end == (if i + size > |s| then |s| else i + size)
    ensures done + Chunks(s[i..], size) == done + [s[i..end]] + Chunks(s[end..], size)
  {
    var t, n := s[i..], end - i;
    assert t[..n] == s[i..end] && t[n..] == s[end..];
    assert done + ([t[..n]] + Chunks(t[n..], size)) == done + [t[..n]] + Chunks(t[n..], size);
  }

  // ---------- decoding loops ----------

  /** What has been read so far, in front of what the rest decodes to. */
  function Joined<T>(s: seq<T>, rest: Option<seq<T>>): (r: Option<seq<T>>)
  {
    match rest case None => None case Some(more) => Some(s + more)
  }

  lemma JoinedNothing<T>(rest: Option<seq<T>>)
    ensures rest == Joined([], rest)
  {
    match rest
    case None =>
    case Some(more) => assert [] + more == more;
  }

  lemma JoinedTwice<T>(s: seq<T>, x: T, rest: Option<seq<T>>)
    ensures Joined(s, Joined([x], rest)) == Joined(s + [x], rest)
  {
    match rest
    case None =>
    case Some(more) => assert s + ([x] + more) == s + [x] + more;
  }
}
