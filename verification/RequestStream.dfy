/** Several requests on one connection: the server reads blocks until an end marker has
    come, takes the text before it, and drops everything else it has read so far. */
module RequestStream {
  import opened Prelude
  import opened Framing
  import opened QueryReply
  import opened ClientRequests

  /** The requests taken from the blocks, `buffer` being what was read since the last one. */
  function Accepted(buffer: string, blocks: seq<string>): seq<string>
    decreases |blocks|
  {
    if blocks == [] then []
    else
      var all := buffer + blocks[0];
      match ServerRead(all, CRLF)
      case None => Accepted(all, blocks[1..])
      case Some(request) => [request] + Accepted("", blocks[1..])
  }

  /** What a client sends for requests one after another. */
  function SentText(requests: seq<string>): string {
    if requests == [] then "" else requests[0] + CRLF + SentText(requests[1..])
  }

  ghost predicate NoneHoldsCr(requests: seq<string>) { forall i :: 0 <= i < |requests| ==> '\r' !in requests[i] }

  /** Some block ends after `p` bytes. */
  ghost predicate Boundary(blocks: seq<string>, p: nat) {
    exists n :: 0 <= n <= |blocks| && |Concat(blocks[..n])| == p
  }

  /** Every request ends where a block ends. */
  ghost predicate Aligned(blocks: seq<string>, requests: seq<string>) {
    forall k :: 0 <= k <= |requests| ==> Boundary(blocks, |SentText(requests[..k])|)
  }

  // ------------------------------------------------------------ one request

  lemma {:induction false} BeforeCrOf(r: string, rest: string)
    requires '\r' !in r
    ensures BeforeCr(r + (CRLF + rest)) == r
  {
    var s := r + (CRLF + rest);
    if r == "" {
      assert s[0] == '\r';
    } else {
      assert s[0] == r[0] && r[0] in r && s[1..] == r[1..] + (CRLF + rest);
      assert r == [r[0]] + r[1..];
      BeforeCrOf(r[1..], rest);
    }
  }

  lemma {:induction false} BeforeCrShort(s: string, p: nat)
    requires OccursAt(s, CRLF, p)
    ensures |BeforeCr(s)| <= p
  {
    CrlfNeedsCr(s, p);
    if s[0] != '\r' {
      assert s[1..][p - 1..p + 1] == s[p..p + 2];
      BeforeCrShort(s[1..], p - 1);
    }
  }

  /** Less than a request and its end marker holds no end marker. */
  lemma NotYet(s: string, r: string, rest: string)
    requires '\r' !in r && s <= r + (CRLF + rest) && |s| < |r| + 2
    ensures ServerRead(s, CRLF) == None
  {
    var all := r + (CRLF + rest);
    assert s == all[..|s|];
    forall p ensures !OccursAt(s, CRLF, p) {
      if 0 <= p < |r| && p < |s| {
        assert s[p] == r[p] && r[p] in r;
      }
      if OccursAt(s, CRLF, p) {
        CrlfNeedsCr(s, p);
        assert false;
      }
    }
  }

  lemma Come(r: string, more: string)
    requires '\r' !in r
    ensures ServerRead(r + (CRLF + more), CRLF) == Some(r)
  {
    FirstCrlf(r);
    PrefixKeepsFirst(r + CRLF, more, CRLF, |r|);
    Assoc(r, CRLF, more);
    BeforeCrOf(r, more);
  }

  lemma ConcatOneMore(blocks: seq<string>, n: nat)
    requires blocks != [] && 1 <= n <= |blocks|
    ensures Concat(blocks[..n]) == blocks[0] + Concat(blocks[1..][..n - 1])
  {
    assert blocks[..n][0] == blocks[0] && blocks[..n][1..] == blocks[1..][..n - 1];
  }

  /** The first request is taken with the block that completes it, and with it whatever else
      that block held is gone. */
  lemma {:induction false} FirstAccepted(buffer: string, blocks: seq<string>, r: string, rest: string) returns (n: nat)
    requires '\r' !in r && buffer + Concat(blocks) == r + (CRLF + rest) && |buffer| < |r| + 2
    ensures 1 <= n <= |blocks| && Accepted(buffer, blocks) == [r] + Accepted("", blocks[n..])
    ensures |buffer| + |Concat(blocks[..n - 1])| < |r| + 2 <= |buffer| + |Concat(blocks[..n])|
    decreases |blocks|
  {
    assert buffer + "" == buffer;
    assert blocks != [];
    var all, more := buffer + blocks[0], Concat(blocks[1..]);
    Assoc(buffer, blocks[0], more);
    if |all| < |r| + 2 {
      assert all == (r + (CRLF + rest))[..|all|];
      NotYet(all, r, rest);
      var m := FirstAccepted(all, blocks[1..], r, rest);
      n := m + 1;
      assert blocks[1..][m..] == blocks[n..];
      ConcatOneMore(blocks, n);
      if m > 1 { ConcatOneMore(blocks, n - 1); } else { assert blocks[..1] == [blocks[0]]; FirstConcat(blocks); }
    } else {
      n := 1;
      var tail := all[|r| + 2..];
      assert all == r + (CRLF + tail);
      Come(r, tail);
      FirstConcat(blocks);
      assert blocks[..0] == [];
    }
  }

  lemma FirstConcat(blocks: seq<string>)
    requires blocks != []
    ensures Concat(blocks[..1]) == blocks[0]
  {
    assert blocks[..1][0] == blocks[0] && blocks[..1][1..] == [] && blocks[0] + "" == blocks[0];
  }

  // ------------------------------------------------------- no byte counts twice

  function Bytes(requests: seq<string>): nat {
    if requests == [] then 0 else |requests[0]| + 2 + Bytes(requests[1..])
  }

  lemma {:induction false} BytesOfSent(requests: seq<string>)
    ensures |SentText(requests)| == Bytes(requests)
  {
    if requests != [] {
      BytesOfSent(requests[1..]);
    }
  }

  lemma {:induction false} AcceptedBytes(buffer: string, blocks: seq<string>)
    ensures Bytes(Accepted(buffer, blocks)) <= |buffer| + |Concat(blocks)|
    decreases |blocks|
  {
    if blocks != [] {
      var all := buffer + blocks[0];
      var p := IndexFrom(all, CRLF, 0);
      if p == -1 {
        AcceptedBytes(all, blocks[1..]);
      } else {
        BeforeCrShort(all, p);
        AcceptedBytes("", blocks[1..]);
        var later := Accepted("", blocks[1..]);
        assert ([BeforeCr(all)] + later)[1..] == later;
      }
    }
  }

  // ------------------------------------------------------------ all requests

  lemma ConcatSplit(blocks: seq<string>, n: nat)
    requires n <= |blocks|
    ensures Concat(blocks) == Concat(blocks[..n]) + Concat(blocks[n..])
  {
    ConcatAppend(blocks[..n], blocks[n..]);
    assert blocks == blocks[..n] + blocks[n..];
  }

  lemma {:induction false} ConcatAppend(a: seq<string>, b: seq<string>)
    ensures Concat(a + b) == Concat(a) + Concat(b)
  {
    if a == [] {
      assert a + b == b;
    } else {
      assert (a + b)[1..] == a[1..] + b;
      ConcatAppend(a[1..], b);
      Assoc(a[0], Concat(a[1..]), Concat(b));
    }
  }

  lemma LengthsGrow(blocks: seq<string>, m: nat, n: nat)
    requires m <= n <= |blocks|
    ensures |Concat(blocks[..m])| <= |Concat(blocks[..n])|
  {
    ConcatSplit(blocks[..n], m);
    assert blocks[..n][..m] == blocks[..m];
  }

  /** The boundaries of the later blocks are those of all blocks past the first `n`. */
  lemma LaterBoundary(blocks: seq<string>, n: nat, p: nat)
    requires n <= |blocks| && p > 0
    ensures Boundary(blocks, |Concat(blocks[..n])| + p) <==> Boundary(blocks[n..], p)
  {
    var q := |Concat(blocks[..n])|;
    if Boundary(blocks, q + p) {
      var m :| 0 <= m <= |blocks| && |Concat(blocks[..m])| == q + p;
      if m < n { LengthsGrow(blocks, m, n); }
      ConcatSplit(blocks[..m], n);
      assert blocks[..m][..n] == blocks[..n] && blocks[..m][n..] == blocks[n..][..m - n];
    }
    if Boundary(blocks[n..], p) {
      var m :| 0 <= m <= |blocks[n..]| && |Concat(blocks[n..][..m])| == p;
      ConcatSplit(blocks[..n + m], n);
      assert blocks[..n + m][..n] == blocks[..n] && blocks[..n + m][n..] == blocks[n..][..m];
    }
  }

  lemma FirstSent(requests: seq<string>, k: nat)
    requires 1 <= k <= |requests|
    ensures |SentText(requests[..k])| == |requests[0]| + 2 + |SentText(requests[1..][..k - 1])|
  {
    assert requests[..k][0] == requests[0] && requests[..k][1..] == requests[1..][..k - 1];
  }

  lemma SentGrows(requests: seq<string>, k: nat)
    requires 1 <= k <= |requests|
    ensures |SentText(requests[..k])| >= 2
  {
    FirstSent(requests, k);
  }

  /** Once the first request ends with a block, the rest are aligned with the later blocks. */
  lemma AlignedRest(blocks: seq<string>, requests: seq<string>, n: nat)
    requires requests != [] && n <= |blocks| && |Concat(blocks[..n])| == |requests[0]| + 2
    ensures Aligned(blocks, requests) <==> Aligned(blocks[n..], requests[1..])
  {
    var later, others := blocks[n..], requests[1..];
    assert blocks[..0] == [] && later[..0] == [] && requests[..0] == [] && others[..0] == [];
    if Aligned(blocks, requests) {
      forall k | 0 <= k <= |others| ensures Boundary(later, |SentText(others[..k])|) {
        FirstSent(requests, k + 1);
        assert Boundary(blocks, |SentText(requests[..k + 1])|);
        if k > 0 { SentGrows(others, k); LaterBoundary(blocks, n, |SentText(others[..k])|); }
      }
    }
    if Aligned(later, others) {
      forall k | 0 <= k <= |requests| ensures Boundary(blocks, |SentText(requests[..k])|) {
        if k > 0 {
          FirstSent(requests, k);
          assert Boundary(later, |SentText(others[..k - 1])|);
          if k > 1 { SentGrows(others, k - 1); LaterBoundary(blocks, n, |SentText(others[..k - 1])|); }
        }
      }
    }
  }

  /** Of requests sent one after another, all are accepted, in order, if and only if each
      ends where a block ends: whatever came in a block after an end marker is lost. */
  lemma {:induction false} AllAcceptedExactly(blocks: seq<string>, requests: seq<string>)
    requires NoneHoldsCr(requests) && Concat(blocks) == SentText(requests)
    ensures Accepted("", blocks) == requests <==> Aligned(blocks, requests)
    decreases |requests|
  {
    if requests == [] {
      NoRequests(blocks);
    } else {
      var r, others := requests[0], requests[1..];
      Assoc(r, CRLF, SentText(others));
      assert "" + Concat(blocks) == r + (CRLF + SentText(others));
      var n := FirstAccepted("", blocks, r, SentText(others));
      assert requests == [r] + others;
      ConcatSplit(blocks, n);
      if |Concat(blocks[..n])| == |r| + 2 {
        SameTails(Concat(blocks[..n]), Concat(blocks[n..]), r + CRLF, SentText(others));
        AllAcceptedExactly(blocks[n..], others);
        AlignedRest(blocks, requests, n);
      } else {
        Overrun(blocks, requests, n);
      }
    }
  }

  lemma SameTails(a: string, b: string, c: string, d: string)
    requires a + b == c + d && |a| == |c|
    ensures b == d
  {
    assert (a + b)[|a|..] == b && (c + d)[|c|..] == d;
  }

  lemma {:induction false} NoRequests(blocks: seq<string>)
    requires Concat(blocks) == ""
    ensures Accepted("", blocks) == [] && Aligned(blocks, [])
  {
    AcceptedBytes("", blocks);
    assert blocks[..0] == [] && Concat(blocks[..0]) == "";
    var none: seq<string> := [];
    forall k | 0 <= k <= |none| ensures Boundary(blocks, |SentText(none[..k])|) {
      assert none[..k] == [] && |Concat(blocks[..0])| == 0;
    }
  }

  /** A block that goes on past the first end marker: too little is left for the others, and
      no block ends with the first request. */
  lemma Overrun(blocks: seq<string>, requests: seq<string>, n: nat)
    requires requests != [] && Concat(blocks) == SentText(requests) && 1 <= n <= |blocks|
    requires |Concat(blocks[..n - 1])| < |requests[0]| + 2 < |Concat(blocks[..n])|
    ensures Accepted("", blocks[n..]) != requests[1..] && !Aligned(blocks, requests)
  {
    AcceptedBytes("", blocks[n..]);
    BytesOfSent(requests[1..]);
    ConcatSplit(blocks, n);
    FirstSent(requests, 1);
    assert requests[1..][..0] == [];
    if Boundary(blocks, |SentText(requests[..1])|) {
      var m :| 0 <= m <= |blocks| && |Concat(blocks[..m])| == |SentText(requests[..1])|;
      if m < n { LengthsGrow(blocks, m, n - 1); } else { LengthsGrow(blocks, n, m); }
    }
  }

  /** Two requests in one block: the second is lost. */
  lemma SecondRequestLost(first: string, second: string)
    requires '\r' !in first && '\r' !in second
    ensures Accepted("", [SentText([first, second])]) == [first]
  {
    var text, rest := SentText([first, second]), SentText([second]);
    assert [first, second][1..] == [second];
    Assoc(first, CRLF, rest);
    Come(first, rest);
    assert "" + text == text;
    var later := [text][1..];
    assert later == [];
    NoRequests(later);
  }
}
