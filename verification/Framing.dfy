/** The client's incremental search for the end of a message in a stream that
    arrives in arbitrary blocks. */
module Framing {
  import opened Prelude

  // --------------------------------------------------------------- searching

  predicate OccursAt(s: string, delim: string, p: int) {
    0 <= p && p + |delim| <= |s| && s[p..p + |delim|] == delim
  }

  /** The first occurrence at or after `from`, or -1. */
  function IndexFrom(s: string, delim: string, from: nat): (r: int)
    ensures r == -1 ==> forall p :: from <= p ==> !OccursAt(s, delim, p)
    ensures r != -1 ==> from <= r && OccursAt(s, delim, r) && forall p :: from <= p < r ==> !OccursAt(s, delim, p)
    decreases |s| - from
  {
    if from + |delim| > |s| then -1
    else if s[from..from + |delim|] == delim then from
    else IndexFrom(s, delim, from + 1)
  }

  /** QByteArray::indexOf: a negative start counts from the end of the array. */
  function IndexOf(s: string, delim: string, from: int): (r: int)
    ensures r != -1 ==> OccursAt(s, delim, r)
  {
    IndexFrom(s, delim, if from >= 0 then from else if from + |s| >= 0 then from + |s| else 0)
  }

  lemma IndexFromEarlier(s: string, delim: string, from: nat, to: nat)
    requires from <= to && forall p :: from <= p < to ==> !OccursAt(s, delim, p)
    ensures IndexFrom(s, delim, from) == IndexFrom(s, delim, to)
  {
    var a, b := IndexFrom(s, delim, from), IndexFrom(s, delim, to);
    if a != -1 { assert OccursAt(s, delim, a); }
    if b != -1 { assert OccursAt(s, delim, b); }
  }

  /** The start the client computes. The subtraction is done on unsigned sizes and
      handed on as a signed one, so it comes out negative for two old sizes. */
  function WrittenStart(delimLength: nat, oldSize: nat): int {
    if delimLength >= 1 && oldSize >= delimLength - 1 then oldSize - delimLength - 1 else 0
  }

  // ------------------------------------------------------------- the reader

  datatype Reader = Reader(buffer: string, listening: bool)

  /** One readyRead: append the block, search, and on success hand the message over
      and stop listening. */
  function Receive(r: Reader, block: string, delim: string, start: nat -> int): (Reader, Option<string>) {
    if !r.listening then (r, None) else
      var all := r.buffer + block;
      var index := IndexOf(all, delim, start(|r.buffer|));
      if index != -1 then (Reader("", false), Some(all[..index]))
      else (Reader(all, true), None)
  }

  /** Read: a new handler for readyRead; the buffer is as it was left. */
  function Listen(r: Reader): Reader { Reader(r.buffer, true) }

  function Written(delim: string): nat -> int { (oldSize: nat) => WrittenStart(|delim|, oldSize) }

  class ServerConnection {
    var inputMessage: string
    var listening: bool

    function State(): Reader
      reads this
    {
      Reader(inputMessage, listening)
    }

    constructor ()
      ensures State() == Reader("", true)
    {
      inputMessage, listening := "", true;
    }

    method Read()
      modifies this`listening
      ensures State() == Listen(old(State())) && inputMessage == old(inputMessage) && listening
    {
      listening := true;
    }

    /** The handler Read connects to readyRead. */
    method ReadyRead(delim: string, block: string) returns (message: Option<string>)
      modifies this
      ensures (State(), message) == Receive(old(State()), block, delim, Written(delim))
      ensures message.Some? ==> OccursAt(old(inputMessage) + block, delim, |message.value|)
      ensures message.Some? ==> message.value == (old(inputMessage) + block)[..|message.value|]
      ensures message.Some? ==> inputMessage == "" && !listening
      ensures message.None? && old(listening) ==> inputMessage == old(inputMessage) + block && listening
    {
      if !listening {
        return None;
      }
      var preSize := |inputMessage|;
      var searchStartPos := if |delim| >= 1 && preSize >= |delim| - 1 then preSize - |delim| - 1 else 0;
      inputMessage := inputMessage + block;
      var index := IndexOf(inputMessage, delim, searchStartPos);
      if index != -1 {
        message := Some(inputMessage[..index]);
        inputMessage := "";
        listening := false;
      } else {
        message := None;
      }
    }
  }

  // ---------------------------------------------------- whole runs of blocks

  /** The message delivered and the number of blocks it took, searching from `start`. */
  function Delivered(buffer: string, blocks: seq<string>, delim: string, start: nat -> int): (r: Option<(string, nat)>)
    ensures r.Some? ==> r.value.1 >= 1
    decreases |blocks|
  {
    if blocks == [] then None
    else match Receive(Reader(buffer, true), blocks[0], delim, start)
      case (_, Some(message)) => Some((message, 1))
      case (r, None) => Later(Delivered(r.buffer, blocks[1..], delim, start))
  }

  function Later(d: Option<(string, nat)>): Option<(string, nat)> {
    match d case None => None case Some((m, n)) => Some((m, n + 1))
  }

  /** The reader after some blocks, and the message they completed. */
  function Fed(r: Reader, blocks: seq<string>, delim: string, start: nat -> int): (Reader, Option<string>)
    decreases |blocks|
  {
    if blocks == [] then (r, None)
    else match Receive(r, blocks[0], delim, start)
      case (r', Some(message)) => (Fed(r', blocks[1..], delim, start).0, Some(message))
      case (r', None) => Fed(r', blocks[1..], delim, start)
  }

  lemma {:induction false} NotListening(buffer: string, blocks: seq<string>, delim: string, start: nat -> int)
    ensures Fed(Reader(buffer, false), blocks, delim, start) == (Reader(buffer, false), None)
    decreases |blocks|
  {
    if blocks != [] {
      NotListening(buffer, blocks[1..], delim, start);
    }
  }

  lemma {:induction false} FedDelivers(buffer: string, blocks: seq<string>, delim: string, start: nat -> int)
    ensures var (r, message) := Fed(Reader(buffer, true), blocks, delim, start);
      match Delivered(buffer, blocks, delim, start)
      case None => message == None && r == Reader(buffer + Concat(blocks), true)
      case Some((m, _)) => message == Some(m) && r == Reader("", false)
    decreases |blocks|
  {
    if blocks == [] {
      assert buffer + "" == buffer;
    } else {
      var all := buffer + blocks[0];
      Assoc(buffer, blocks[0], Concat(blocks[1..]));
      match Receive(Reader(buffer, true), blocks[0], delim, start)
      case (_, Some(_)) => NotListening("", blocks[1..], delim, start);
      case (_, None) => FedDelivers(all, blocks[1..], delim, start);
    }
  }

  /** After a message the connection is as new: a second Read delivers from the blocks that
      come then what a fresh connection would. */
  lemma SecondRead(first: seq<string>, second: seq<string>, delim: string, start: nat -> int)
    requires Delivered("", first, delim, start).Some?
    ensures var r := Fed(Reader("", true), first, delim, start).0;
      Fed(Listen(r), second, delim, start) == Fed(Reader("", true), second, delim, start)
  {
    FedDelivers("", first, delim, start);
  }

  /** What the stream should give: the text before the first delimiter of everything
      received, on the first block that completes it. */
  function Expected(buffer: string, blocks: seq<string>, delim: string): Option<(string, nat)>
    decreases |blocks|
  {
    if blocks == [] then None else
      var all := buffer + blocks[0];
      var p := IndexFrom(all, delim, 0);
      if p != -1 then Some((all[..p], 1)) else Later(Expected(all, blocks[1..], delim))
  }

  function Concat(blocks: seq<string>): string {
    if blocks == [] then "" else blocks[0] + Concat(blocks[1..])
  }

  /** Expected says what it should: the message ends at the first delimiter of the whole
      stream, and no earlier block had already completed one. */
  lemma {:induction false} ExpectedIsFirstDelimiter(buffer: string, blocks: seq<string>, delim: string)
    ensures match Expected(buffer, blocks, delim)
      case None => forall n :: 1 <= n <= |blocks| ==> IndexFrom(buffer + Concat(blocks[..n]), delim, 0) == -1
      case Some((m, k)) =>
        && 1 <= k <= |blocks|
        && IndexFrom(buffer + Concat(blocks), delim, 0) == |m| && m == (buffer + Concat(blocks))[..|m|]
        && IndexFrom(buffer + Concat(blocks[..k]), delim, 0) == |m|
        && forall n :: 1 <= n < k ==> IndexFrom(buffer + Concat(blocks[..n]), delim, 0) == -1
    decreases |blocks|
  {
    if blocks != [] {
      var all := buffer + blocks[0];
      var rest := blocks[1..];
      forall n | 1 <= n <= |blocks| ensures buffer + Concat(blocks[..n]) == all + Concat(rest[..n - 1]) {
        assert blocks[..n][1..] == rest[..n - 1];
        assert blocks[..n][0] == blocks[0];
      }
      assert blocks[..|blocks|] == blocks && rest[..|rest|] == rest;
      assert all + Concat(rest[..0]) == all;
      ExpectedIsFirstDelimiter(all, rest, delim);
      var p := IndexFrom(all, delim, 0);
      if p != -1 {
        PrefixKeepsFirst(all, Concat(rest), delim, p);
      } else {
        var e := Expected(all, rest, delim);
        if e.Some? {
          var k := e.value.1;
          forall n | 1 <= n < k + 1 ensures IndexFrom(buffer + Concat(blocks[..n]), delim, 0) == -1 {
            if n > 1 { assert buffer + Concat(blocks[..n]) == all + Concat(rest[..n - 1]); }
          }
        } else {
          forall n | 1 <= n <= |blocks| ensures IndexFrom(buffer + Concat(blocks[..n]), delim, 0) == -1 {
            if n > 1 { assert buffer + Concat(blocks[..n]) == all + Concat(rest[..n - 1]); }
          }
        }
      }
    }
  }

  /** Whatever start is used, a message delivered is what precedes some delimiter of the
      stream. */
  lemma {:induction false} DeliveredIsCut(buffer: string, blocks: seq<string>, delim: string, start: nat -> int)
    ensures var d := Delivered(buffer, blocks, delim, start); var s := buffer + Concat(blocks);
      d.Some? ==> OccursAt(s, delim, |d.value.0|) && d.value.0 == s[..|d.value.0|]
    decreases |blocks|
  {
    if blocks != [] {
      var all, s := buffer + blocks[0], buffer + Concat(blocks);
      assert s == all + Concat(blocks[1..]);
      var index := IndexOf(all, delim, start(|buffer|));
      if index != -1 {
        assert s[index..index + |delim|] == all[index..index + |delim|];
        assert s[..index] == all[..index];
      } else {
        DeliveredIsCut(all, blocks[1..], delim, start);
      }
    }
  }

  lemma PrefixKeepsFirst(s: string, more: string, delim: string, p: nat)
    requires IndexFrom(s, delim, 0) == p
    ensures IndexFrom(s + more, delim, 0) == p
  {
    assert OccursAt(s, delim, p);
    assert (s + more)[p..p + |delim|] == s[p..p + |delim|];
    assert OccursAt(s + more, delim, p);
    forall q | 0 <= q < p ensures !OccursAt(s + more, delim, q) {
      assert !OccursAt(s, delim, q);
      assert (s + more)[q..q + |delim|] == s[q..q + |delim|];
    }
  }

  /** A new occurrence ends in the new block. */
  lemma NewOccurrence(before: string, block: string, delim: string)
    requires IndexFrom(before, delim, 0) == -1
    ensures forall p :: OccursAt(before + block, delim, p) ==> p + |delim| > |before|
  {
    forall p | OccursAt(before + block, delim, p) ensures p + |delim| > |before| {
      if p + |delim| <= |before| {
        assert (before + block)[p..p + |delim|] == before[p..p + |delim|];
        assert OccursAt(before, delim, p);
      }
    }
  }

  /** Any start at or before old size minus (delimiter length minus 1), clamped at 0,
      is safe: the windowed search refines the whole-buffer search. */
  lemma {:induction false} SafeStartRefines(buffer: string, blocks: seq<string>, delim: string, start: nat -> int)
    requires forall oldSize: nat ::
      0 <= start(oldSize) && (start(oldSize) == 0 || start(oldSize) <= oldSize - (|delim| - 1))
    requires IndexFrom(buffer, delim, 0) == -1
    ensures Delivered(buffer, blocks, delim, start) == Expected(buffer, blocks, delim)
    decreases |blocks|
  {
    if blocks != [] {
      var all := buffer + blocks[0];
      NewOccurrence(buffer, blocks[0], delim);
      IndexFromEarlier(all, delim, 0, start(|buffer|));
      if IndexFrom(all, delim, 0) == -1 {
        SafeStartRefines(all, blocks[1..], delim, start);
      }
    }
  }

  // --------------------------------------------------- the start as written

  /** At the block that completes the message, the old size is neither the delimiter's
      length nor one less, or the search from the end still begins early enough. */
  predicate WindowReaches(oldSize: nat, newSize: nat, first: int, delimLength: nat) {
    !(1 <= delimLength && delimLength - 1 <= oldSize <= delimLength)
      || oldSize - delimLength - 1 + newSize <= first
  }

  /** The same, located: `newSize` is the size at the first block that completes a message. */
  predicate ReachesAtCompletion(buffer: string, blocks: seq<string>, delim: string)
    decreases |blocks|
  {
    blocks == [] ||
      var all := buffer + blocks[0];
      var p := IndexFrom(all, delim, 0);
      if p == -1 then ReachesAtCompletion(all, blocks[1..], delim) else WindowReaches(|buffer|, |all|, p, |delim|)
  }

  /** The written search delivers what it should exactly when the window reaches back
      far enough at the completing block. */
  lemma {:induction false} WrittenStartExactly(buffer: string, blocks: seq<string>, delim: string)
    requires IndexFrom(buffer, delim, 0) == -1
    ensures Delivered(buffer, blocks, delim, Written(delim)) == Expected(buffer, blocks, delim)
       <==> ReachesAtCompletion(buffer, blocks, delim)
    decreases |blocks|
  {
    if blocks != [] {
      var all := buffer + blocks[0];
      var p := IndexFrom(all, delim, 0);
      NewOccurrence(buffer, blocks[0], delim);
      if p == -1 {
        NothingToFind(all, delim, Written(delim)(|buffer|));
        WrittenStartExactly(all, blocks[1..], delim);
      } else {
        CompletingBlock(buffer, blocks, delim, p);
      }
    }
  }

  lemma NothingToFind(s: string, delim: string, from: int)
    requires IndexFrom(s, delim, 0) == -1
    ensures IndexOf(s, delim, from) == -1
  {
  }

  /** A search finds the first occurrence exactly when it starts no later than that. */
  lemma FindsFirst(s: string, delim: string, p: nat, from: nat)
    requires IndexFrom(s, delim, 0) == p
    ensures IndexFrom(s, delim, from) == p <==> from <= p
  {
    if from <= p {
      IndexFromEarlier(s, delim, 0, from);
    }
  }

  /** Where QByteArray starts for the start as written. */
  function EffectiveStart(oldSize: nat, newSize: nat, d: nat): nat {
    var written := WrittenStart(d, oldSize);
    if written >= 0 then written else if written + newSize >= 0 then written + newSize else 0
  }

  lemma EffectiveStartReaches(oldSize: nat, newSize: nat, d: nat, first: nat)
    requires d > 0 && first + d > oldSize
    ensures EffectiveStart(oldSize, newSize, d) <= first <==> WindowReaches(oldSize, newSize, first, d)
  {
  }

  lemma ReceiveFinds(buffer: string, block: string, delim: string, p: nat)
    requires IndexFrom(buffer, delim, 0) == -1 && IndexFrom(buffer + block, delim, 0) == p
    ensures Receive(Reader(buffer, true), block, delim, Written(delim)).1 == Some((buffer + block)[..p])
       <==> WindowReaches(|buffer|, |buffer + block|, p, |delim|)
  {
    var all := buffer + block;
    var from := EffectiveStart(|buffer|, |all|, |delim|);
    var r := IndexFrom(all, delim, from);
    NewOccurrence(buffer, block, delim);
    assert OccursAt(all, delim, p);
    NonEmptyDelimiter(buffer, delim);
    EffectiveStartReaches(|buffer|, |all|, |delim|, p);
    FindsFirst(all, delim, p, from);
    if r != -1 && r != p {
      assert |all[..r]| == r && |all[..p]| == p;
    }
  }

  lemma NonEmptyDelimiter(s: string, delim: string)
    requires IndexFrom(s, delim, 0) == -1
    ensures |delim| > 0
  {
    assert !OccursAt(s, delim, 0);
  }

  lemma CompletingBlock(buffer: string, blocks: seq<string>, delim: string, p: nat)
    requires IndexFrom(buffer, delim, 0) == -1 && blocks != []
    requires IndexFrom(buffer + blocks[0], delim, 0) == p
    ensures Delivered(buffer, blocks, delim, Written(delim)) == Some(((buffer + blocks[0])[..p], 1))
       <==> WindowReaches(|buffer|, |buffer + blocks[0]|, p, |delim|)
  {
    ReceiveFinds(buffer, blocks[0], delim, p);
  }

  const CRLF: string := "\r\n"

  /** With the two-byte delimiter the client uses, a completing block fails exactly after
      two bytes, or after one unless the delimiter ends the buffer. */
  lemma WindowReachesCrlf(oldSize: nat, newSize: nat, first: nat)
    requires first + 2 <= newSize
    ensures WindowReaches(oldSize, newSize, first, |CRLF|) <==> oldSize != 2 && (oldSize == 1 ==> first == newSize - 2)
  {
  }

  lemma TwoBytesFirst()
    ensures IndexFrom("ab", CRLF, 0) == -1 && IndexFrom("abc\r\n", CRLF, 0) == 3 && IndexFrom("abc\r\n", CRLF, 4) == -1
  {
    var all := "abc\r\n";
    assert "ab"[0..2] == "ab" && "ab"[0] != CRLF[0];
    assert all[3..5] == CRLF && OccursAt(all, CRLF, 3);
  }

  /** A run on which the written start loses a message that is in the buffer. */
  lemma WrittenStartLosesMessage()
    ensures Expected("", ["ab", "c\r\n"], CRLF) == Some(("abc", 2))
    ensures Delivered("", ["ab", "c\r\n"], CRLF, Written(CRLF)) == None
  {
    var all := "ab" + "c\r\n";
    assert all == "abc\r\n" && "" + "ab" == "ab" && all[..3] == "abc";
    TwoBytesFirst();
    NothingToFind("ab", CRLF, 0);
    var blocks := ["ab", "c\r\n"];
    assert blocks[1..] == ["c\r\n"] && ["c\r\n"][1..] == [];
  }
}
