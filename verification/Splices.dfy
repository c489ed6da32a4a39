/** Cutting and joining sequences. */
module Splices {

  /** Python's s[from:to] = mid. */
  function Splice<T>(s: seq<T>, from: nat, to: nat, mid: seq<T>): seq<T>
    requires from <= to <= |s|
  {
    s[..from] + mid + s[to..]
  }

  lemma Suffix<T>(s: seq<T>, i: nat, pre: seq<T>, post: seq<T>)
    requires i <= |s| && s[i..] == pre + post
    ensures i + |pre| <= |s| && s[i + |pre|..] == post && s[..i + |pre|] == s[..i] + pre
    ensures forall k | 0 <= k < |pre| :: s[i + k] == pre[k]
    ensures forall k | 0 <= k < |post| :: s[i + |pre| + k] == post[k]
  {
    assert s[i + |pre|..] == s[i..][|pre|..];
    assert s[i..][..|pre|] == pre;
  }

  /** A cut that starts k into `body` and ends with it, where `body` stands at `at`. */
  lemma SpliceBelow<T>(
    s: seq<T>, at: nat, body: seq<T>, rest: seq<T>, k: nat, mid: seq<T>, head: seq<T>, from: nat, to: nat)
    requires at <= |s| && s[at..] == body + rest && k <= |body| && head == s[..at] + (body[..k] + mid)
    requires from == at + k && to == at + |body|
    ensures to <= |s| && |head| == from + |mid| && Splice(s, from, to, mid) == head + rest
  {
    Suffix(s, at, body, rest);
    assert s[..from] == s[..at] + body[..k];
  }

  /** A cut of length m that starts k into `body`, and may reach beyond it. */
  lemma SpliceAcross<T>(
    s: seq<T>, at: nat, body: seq<T>, rest: seq<T>, k: nat, m: nat, mid: seq<T>, head: seq<T>, from: nat, to: nat)
    requires at <= |s| && s[at..] == body + rest && k <= |body| && m <= |body[k..] + rest|
    requires head == s[..at] + (body[..k] + mid) && from == at + k && to == from + m
    ensures to <= |s| && |head| == from + |mid| && Splice(s, from, to, mid) == head + (body[k..] + rest)[m..]
  {
    var cut, left := (body[k..] + rest)[..m], (body[k..] + rest)[m..];
    assert body + rest == (body[..k] + cut) + left;
    SpliceBelow(s, at, body[..k] + cut, left, k, mid, head, from, to);
  }

  lemma Below<T>(s: seq<T>, at: nat, body: seq<T>, rest: seq<T>, k: nat)
    requires at <= |s| && s[at..] == body + rest && k <= |body|
    ensures at + k <= |s| && s[at + k..] == body[k..] + rest
  {
    assert body + rest == body[..k] + (body[k..] + rest);
    Suffix(s, at, body[..k], body[k..] + rest);
  }

  lemma Assoc<T>(a: seq<T>, b: seq<T>, c: seq<T>, d: seq<T>, e: seq<T>)
    ensures a + b + c + d + e == a + (b + c + d + e)
    ensures a + (b + (c + (d + e))) == a + b + c + d + e
  {
    assert b + (c + (d + e)) == b + c + d + e;
  }

  lemma Join3<T>(a: seq<T>, b: seq<T>, c: seq<T>)
    ensures a + b + c == a + (b + c)
  {
  }

  lemma AtEnd<T>(head: seq<T>, tail: seq<T>)
    ensures (head + tail)[|head|..] == tail && (head + tail)[..|head|] == head
  {
  }

  lemma CutJoin<T>(body: seq<T>, tail: seq<T>, m: nat)
    requires m <= |body| + |tail|
    ensures (body + tail)[m..] == if m < |body| then body[m..] + tail else tail[m - |body|..]
  {
  }
}
