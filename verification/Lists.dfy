/** Notions on sequences that several of the models share. */
module Lists {

  ghost predicate Distinct(s: seq<nat>) {
    forall i, j :: 0 <= i < j < |s| ==> s[i] != s[j]
  }

  function Slice(m: seq<int>, at: nat, len: nat): seq<int>
    requires at + len <= |m|
  {
    m[at..at + len]
  }

  /** Memory after v was put at offset `at`. */
  function Overwrite(m: seq<int>, at: nat, v: seq<int>): (r: seq<int>)
    requires at + |v| <= |m|
    ensures |r| == |m| && Slice(r, at, |v|) == v
    ensures forall k :: 0 <= k < |m| ==> r[k] == if at <= k < at + |v| then v[k - at] else m[k]
  {
    m[..at] + v + m[at + |v|..]
  }
}
