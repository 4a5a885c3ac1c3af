/**
 * `PipeTransport` (src/server/pipeTransport.ts): the browser connection over
 * a pair of pipes, where every protocol message is JSON text terminated by a
 * NUL character. `send` frames outgoing messages; `_dispatch` cuts incoming
 * chunks back into messages, carrying an unterminated tail to the next chunk.
 */
module PipeTransport {
  import opened Wrappers
  import opened Strings

  const NUL: char := '\0'

  const ClosedError := "Pipe has been closed"

  /** No message of `msgs` holds a NUL. */
  predicate AllFree(msgs: seq<string>) {
    forall i :: 0 <= i < |msgs| ==> Free(msgs[i], NUL)
  }

  /** The bytes `send` writes for `msgs`: each message followed by one NUL. */
  function Frames(msgs: seq<string>): string
    decreases |msgs|
  {
    if msgs == [] then "" else msgs[0] + [NUL] + Frames(msgs[1..])
  }

  /** Framing one more message appends its frame. */
  lemma {:induction false} FramesAppend(msgs: seq<string>, m: string)
    ensures Frames(msgs + [m]) == Frames(msgs) + m + [NUL]
    decreases |msgs|
  {
    if msgs == [] {
      assert Frames([m]) == m + [NUL] + Frames([]);
    } else {
      assert (msgs + [m])[1..] == msgs[1..] + [m];
      FramesAppend(msgs[1..], m);
    }
  }

  /**
   * The complete messages of `s` (the text before each NUL) and the
   * unterminated rest; `s` is exactly their frames followed by the rest.
   */
  function SplitFrames(s: string): (seq<string>, string)
    decreases |s|
  {
    var i := IndexOf(s, NUL, 0);
    if i == -1 then ([], s)
    else
      var tail := SplitFrames(s[i + 1..]);
      ([s[..i]] + tail.0, tail.1)
  }

  /** `SplitFrames` unfolded at the first NUL. */
  lemma SplitFramesAt(s: string, i: int)
    requires i == IndexOf(s, NUL, 0)
    ensures i == -1 ==> SplitFrames(s) == ([], s)
    ensures i != -1 ==> SplitFrames(s) == ([s[..i]] + SplitFrames(s[i + 1..]).0, SplitFrames(s[i + 1..]).1)
  {
  }

  /** The frame of a first message followed by the frames of the others. */
  lemma FramesCons(m: string, msgs: seq<string>)
    ensures Frames([m] + msgs) == m + [NUL] + Frames(msgs)
  {
    assert ([m] + msgs)[1..] == msgs;
  }

  /** A first message followed by frames and a rest reads as that message, a NUL, and the rest's text. */
  lemma ConsFrames(first: string, msgs: seq<string>, rest: string, text: string)
    requires Frames(msgs) + rest == text
    ensures Frames([first] + msgs) + rest == first + [NUL] + text
  {
    FramesCons(first, msgs);
    var head := first + [NUL];
    assert (head + Frames(msgs)) + rest == head + (Frames(msgs) + rest);
  }

  /** No complete message and no rest of a split holds a NUL. */
  lemma {:induction false} SplitFramesFree(s: string)
    ensures AllFree(SplitFrames(s).0) && Free(SplitFrames(s).1, NUL)
    decreases |s|
  {
    var i := IndexOf(s, NUL, 0);
    SplitFramesAt(s, i);
    IndexOfFirst(s, NUL, 0);
    if i != -1 {
      SplitFramesFree(s[i + 1..]);
      var msgs := SplitFrames(s[i + 1..]).0;
      assert Free(s[..i], NUL);
      assert forall j :: 1 <= j < |msgs| + 1 ==> ([s[..i]] + msgs)[j] == msgs[j - 1];
    }
  }

  /** `s` is exactly the frames of its complete messages followed by the rest. */
  lemma {:induction false} SplitFramesConcat(s: string)
    ensures Frames(SplitFrames(s).0) + SplitFrames(s).1 == s
    decreases |s|
  {
    var i := IndexOf(s, NUL, 0);
    SplitFramesAt(s, i);
    if i != -1 {
      SplitFramesConcat(s[i + 1..]);
      ConsFrames(s[..i], SplitFrames(s[i + 1..]).0, SplitFrames(s[i + 1..]).1, s[i + 1..]);
      CutAround(s, i);
    }
  }

  /** Where the first `c` of `a + b` is, when `a` holds none. */
  lemma IndexOfAfterFree(a: string, b: string, c: char)
    requires Free(a, c)
    ensures IndexOf(a + b, c, 0) == if IndexOf(b, c, 0) == -1 then -1 else |a| + IndexOf(b, c, 0)
  {
    var s := a + b;
    assert forall k :: |a| <= k < |s| ==> s[k] == b[k - |a|];
    var j := IndexOf(b, c, 0);
    IndexOfFirst(b, c, 0);
    IndexOfFirst(s, c, 0);
    if j != -1 {
      assert s[|a| + j] == c;
    }
  }

  /** Searching from `start` is searching the suffix that begins there. */
  lemma IndexOfSuffix(s: string, c: char, start: nat)
    requires start <= |s|
    ensures IndexOf(s[start..], c, 0) == if IndexOf(s, c, start) == -1 then -1 else IndexOf(s, c, start) - start
  {
    var e := IndexOf(s, c, start);
    var t := s[start..];
    assert forall k :: 0 <= k < |t| ==> t[k] == s[start + k];
    IndexOfFirst(s, c, start);
    IndexOfFirst(t, c, 0);
    if e != -1 {
      assert t[e - start] == c;
    }
  }

  /** A slice of a slice is a slice of the whole. */
  lemma SliceOfSlice<T>(s: seq<T>, a: nat, b: nat)
    requires a + b <= |s|
    ensures s[a..][b..] == s[a + b..] && s[a..][..b] == s[a..a + b]
  {
  }

  /** `SplitFrames` of a suffix, unfolded at the next NUL after `start`. */
  lemma SplitFramesFrom(s: string, start: nat)
    requires start <= |s|
    ensures var e := IndexOf(s, NUL, start);
      && (e == -1 ==> SplitFrames(s[start..]) == ([], s[start..]))
      && (e != -1 ==> SplitFrames(s[start..]) == ([s[start..e]] + SplitFrames(s[e + 1..]).0, SplitFrames(s[e + 1..]).1))
  {
    var e := IndexOf(s, NUL, start);
    IndexOfSuffix(s, NUL, start);
    if e != -1 {
      SplitFramesFromCut(s, start, e);
    } else {
      SplitFramesAt(s[start..], -1);
    }
  }

  /** `SplitFramesFrom` when there is a NUL at `e`, the first after `start`. */
  lemma SplitFramesFromCut(s: string, start: nat, e: nat)
    requires start <= e < |s| && IndexOf(s[start..], NUL, 0) == e - start
    ensures SplitFrames(s[start..]) == ([s[start..e]] + SplitFrames(s[e + 1..]).0, SplitFrames(s[e + 1..]).1)
  {
    SplitFramesAt(s[start..], e - start);
    SliceOfSlice(s, start, e - start);
    SliceOfSlice(s, start, e - start + 1);
  }

  /**
   * What one `_dispatch(chunk)` delivers and the pending text it leaves: a
   * chunk without a NUL is appended to the pending text; otherwise the first
   * message is the pending text plus the chunk up to its first NUL, and the
   * rest of the chunk is cut at every further NUL.
   */
  function DispatchStep(pending: string, chunk: string): (seq<string>, string)
  {
    var end := IndexOf(chunk, NUL, 0);
    if end == -1 then ([], pending + chunk)
    else
      var tail := SplitFrames(chunk[end + 1..]);
      ([pending + chunk[..end]] + tail.0, tail.1)
  }

  /** `DispatchStep` unfolded at the chunk's first NUL. */
  lemma DispatchStepAt(pending: string, chunk: string, end: int)
    requires end == IndexOf(chunk, NUL, 0)
    ensures end == -1 ==> DispatchStep(pending, chunk) == ([], pending + chunk)
    ensures end != -1 ==>
      DispatchStep(pending, chunk) == ([pending + chunk[..end]] + SplitFrames(chunk[end + 1..]).0, SplitFrames(chunk[end + 1..]).1)
  {
  }

  /** The chunk cut at its NUL, with the pending text in front. */
  lemma CutAfterPending(pending: string, chunk: string, end: int)
    requires 0 <= end < |chunk| && chunk[end] == NUL
    ensures pending + chunk == (pending + chunk[..end]) + [NUL] + chunk[end + 1..]
  {
    CutAround(chunk, end);
  }

  /** The concatenation law for a chunk with a NUL at `end`, its first. */
  lemma ConcatenationLawCut(pending: string, chunk: string, end: int)
    requires end == IndexOf(chunk, NUL, 0) && end != -1
    ensures Frames(DispatchStep(pending, chunk).0) + DispatchStep(pending, chunk).1 == pending + chunk
  {
    var tail := SplitFrames(chunk[end + 1..]);
    DispatchStepAt(pending, chunk, end);
    SplitFramesConcat(chunk[end + 1..]);
    ConsFrames(pending + chunk[..end], tail.0, tail.1, chunk[end + 1..]);
    CutAfterPending(pending, chunk, end);
  }

  /** Nothing is lost or added: old pending + chunk == the delivered frames + the new pending. */
  lemma ConcatenationLaw(pending: string, chunk: string)
    ensures Frames(DispatchStep(pending, chunk).0) + DispatchStep(pending, chunk).1 == pending + chunk
  {
    var end := IndexOf(chunk, NUL, 0);
    if end != -1 {
      ConcatenationLawCut(pending, chunk, end);
    } else {
      DispatchStepAt(pending, chunk, end);
      assert Frames([]) == "";
    }
  }

  /** A chunk without a NUL delivers nothing and is appended to the pending text. */
  lemma ChunkWithoutTerminator(pending: string, chunk: string)
    requires Free(chunk, NUL)
    ensures DispatchStep(pending, chunk) == ([], pending + chunk)
  {
    DispatchStepAt(pending, chunk, IndexOf(chunk, NUL, 0));
  }

  /** The pieces of `pending + chunk` around the chunk's NUL at `end`. */
  lemma SlicesAfterPending(pending: string, chunk: string, end: int)
    requires 0 <= end < |chunk|
    ensures (pending + chunk)[..|pending| + end] == pending + chunk[..end]
    ensures (pending + chunk)[|pending| + end + 1..] == chunk[end + 1..]
  {
  }

  /** `DispatchIsSplit` for a chunk whose first NUL is at `end`. */
  lemma DispatchIsSplitCut(pending: string, chunk: string, end: int)
    requires Free(pending, NUL)
    requires end == IndexOf(chunk, NUL, 0) && end != -1
    ensures DispatchStep(pending, chunk) == SplitFrames(pending + chunk)
  {
    var s := pending + chunk;
    var k := |pending| + end;
    IndexOfAfterFree(pending, chunk, NUL);
    SplitFramesAt(s, k);
    SlicesAfterPending(pending, chunk, end);
    DispatchStepAt(pending, chunk, end);
    var tail := SplitFrames(chunk[end + 1..]);
    assert SplitFrames(s) == ([pending + chunk[..end]] + tail.0, tail.1);
  }

  /** From a NUL-free pending text, a dispatch is the split of pending + chunk. */
  lemma DispatchIsSplit(pending: string, chunk: string)
    requires Free(pending, NUL)
    ensures DispatchStep(pending, chunk) == SplitFrames(pending + chunk)
  {
    var end := IndexOf(chunk, NUL, 0);
    if end != -1 {
      DispatchIsSplitCut(pending, chunk, end);
    } else {
      DispatchStepAt(pending, chunk, end);
      IndexOfAfterFree(pending, chunk, NUL);
      SplitFramesAt(pending + chunk, -1);
    }
  }

  /** From a NUL-free pending text no delivered message and no new pending text holds a NUL. */
  lemma NoNulInside(pending: string, chunk: string)
    requires Free(pending, NUL)
    ensures AllFree(DispatchStep(pending, chunk).0) && Free(DispatchStep(pending, chunk).1, NUL)
  {
    DispatchIsSplit(pending, chunk);
    SplitFramesFree(pending + chunk);
  }

  /** The first `c` of `a` is also the first of `a + b`. */
  lemma IndexOfBefore(a: string, b: string, c: char, i: int)
    requires i == IndexOf(a, c, 0) && i != -1
    ensures IndexOf(a + b, c, 0) == i
  {
    var s := a + b;
    assert forall k :: 0 <= k < |a| ==> s[k] == a[k];
    IndexOfFirst(a, c, 0);
    IndexOfFirst(s, c, 0);
  }

  /** `SplitFrames(a + b)` unfolded at the first NUL of `a`. */
  lemma SplitOfAppendAt(a: string, b: string, i: int)
    requires i == IndexOf(a, NUL, 0) && i != -1
    ensures SplitFrames(a + b) == ([a[..i]] + SplitFrames(a[i + 1..] + b).0, SplitFrames(a[i + 1..] + b).1)
  {
    IndexOfBefore(a, b, NUL, i);
    SplitFramesAt(a + b, i);
    assert (a + b)[..i] == a[..i];
    assert (a + b)[i + 1..] == a[i + 1..] + b;
  }

  /**
   * The state of `_dispatch`'s loop: what was delivered so far, followed by
   * the messages still to cut from `buffer[start..]`, is everything the chunk
   * delivers, and what is left over after them is the new pending text.
   */
  ghost predicate Cutting(delivered: seq<string>, buffer: string, start: nat, total: seq<string>, rest: string)
    requires start <= |buffer|
  {
    delivered + SplitFrames(buffer[start..]).0 == total && SplitFrames(buffer[start..]).1 == rest
  }

  /** Before the loop nothing of `buffer[start..]` is delivered yet. */
  lemma CuttingInit(delivered: seq<string>, buffer: string, start: nat)
    requires start <= |buffer|
    ensures Cutting(delivered, buffer, start, delivered + SplitFrames(buffer[start..]).0, SplitFrames(buffer[start..]).1)
  {
  }

  /** Cutting one more message at the next NUL keeps the loop state. */
  lemma CuttingStep(delivered: seq<string>, buffer: string, start: nat, end: int, total: seq<string>, rest: string)
    requires start <= |buffer| && Cutting(delivered, buffer, start, total, rest)
    requires end == IndexOf(buffer, NUL, start) && end != -1
    ensures Cutting(delivered + [buffer[start..end]], buffer, end + 1, total, rest)
  {
    SplitFramesFrom(buffer, start);
    DeliverOne(delivered, buffer[start..end], SplitFrames(buffer[end + 1..]).0, total);
  }

  /** Without a further NUL the loop has delivered everything, and the tail is the NUL-free rest. */
  lemma CuttingDone(delivered: seq<string>, buffer: string, start: nat, total: seq<string>, rest: string)
    requires start <= |buffer| && Cutting(delivered, buffer, start, total, rest)
    requires IndexOf(buffer, NUL, start) == -1
    ensures delivered == total && buffer[start..] == rest && Free(rest, NUL)
  {
    SplitFramesFrom(buffer, start);
    SplitFramesFree(buffer[start..]);
    assert delivered + [] == delivered;
  }

  /** Moving one delivered message from the frames still to cut to the delivered list. */
  lemma DeliverOne<T>(delivered: seq<T>, m: T, tail: seq<T>, total: seq<T>)
    requires delivered + ([m] + tail) == total
    ensures (delivered + [m]) + tail == total
  {
  }

  lemma ConsAssoc<T>(x: T, m1: seq<T>, m2: seq<T>)
    ensures ([x] + m1) + m2 == [x] + (m1 + m2)
  {
  }

  /** Splitting a concatenation: split the first part, then the rest of it followed by the second. */
  lemma {:induction false} SplitAppend(a: string, b: string)
    ensures SplitFrames(a + b)
      == (SplitFrames(a).0 + SplitFrames(SplitFrames(a).1 + b).0, SplitFrames(SplitFrames(a).1 + b).1)
    decreases |a|
  {
    var i := IndexOf(a, NUL, 0);
    SplitFramesAt(a, i);
    if i != -1 {
      var a' := a[i + 1..];
      SplitOfAppendAt(a, b, i);
      SplitAppend(a', b);
      var sa, sa', sab, sa'b := SplitFrames(a), SplitFrames(a'), SplitFrames(a + b), SplitFrames(a' + b);
      var r := SplitFrames(sa'.1 + b);
      assert sa == ([a[..i]] + sa'.0, sa'.1);
      assert sab == ([a[..i]] + sa'b.0, sa'b.1);
      assert sa'b == (sa'.0 + r.0, r.1);
      ConsAssoc(a[..i], sa'.0, r.0);
      assert SplitFrames(sa.1 + b) == r;
    } else {
      assert SplitFrames(a).0 + SplitFrames(a + b).0 == SplitFrames(a + b).0;
    }
  }

  /** The frames of NUL-free messages followed by a NUL-free rest split back into exactly those. */
  lemma {:induction false} SplitFramesOfFrames(msgs: seq<string>, rest: string)
    requires AllFree(msgs) && Free(rest, NUL)
    ensures SplitFrames(Frames(msgs) + rest) == (msgs, rest)
    decreases |msgs|
  {
    if msgs == [] {
      assert Frames(msgs) + rest == rest;
    } else {
      var m, later := msgs[0], msgs[1..];
      var text := Frames(later) + rest;
      assert [m] + later == msgs;
      ConsFrames(m, later, rest, text);
      SplitFramesOfFrames(later, rest);
      SplitFramesAfterFree(m, text);
    }
  }

  /** A NUL-free message and its NUL in front of `text` is split off as the first message. */
  lemma SplitFramesAfterFree(m: string, text: string)
    requires Free(m, NUL)
    ensures SplitFrames(m + [NUL] + text) == ([m] + SplitFrames(text).0, SplitFrames(text).1)
  {
    var s := m + [NUL] + text;
    assert s == m + ([NUL] + text);
    IndexOfAfterFree(m, [NUL] + text, NUL);
    assert ([NUL] + text)[0] == NUL;
    SplitFramesAt(s, |m|);
    assert s[..|m|] == m;
    assert s[|m| + 1..] == text;
  }

  /** The text of a sequence of chunks. */
  function Concat(chunks: seq<string>): string
    decreases |chunks|
  {
    if chunks == [] then "" else chunks[0] + Concat(chunks[1..])
  }

  /** Dispatching `chunks` one after another: all delivered messages, in order, and the final pending text. */
  function DispatchAll(pending: string, chunks: seq<string>): (seq<string>, string)
    decreases |chunks|
  {
    if chunks == [] then ([], pending)
    else
      var first := DispatchStep(pending, chunks[0]);
      var later := DispatchAll(first.1, chunks[1..]);
      (first.0 + later.0, later.1)
  }

  /** However the stream is cut into chunks, the messages delivered are those of the whole stream. */
  lemma {:induction false} DispatchAllIsSplit(pending: string, chunks: seq<string>)
    requires Free(pending, NUL)
    ensures DispatchAll(pending, chunks) == SplitFrames(pending + Concat(chunks))
    decreases |chunks|
  {
    if chunks == [] {
      assert pending + Concat(chunks) == pending;
    } else {
      var c, cs := chunks[0], chunks[1..];
      DispatchIsSplit(pending, c);
      SplitFramesFree(pending + c);
      var first := SplitFrames(pending + c);
      DispatchAllIsSplit(first.1, cs);
      SplitAppend(pending + c, Concat(cs));
      assert Concat(chunks) == c + Concat(cs);
      AppendAssoc(pending, c, Concat(cs));
    }
  }

  /**
   * Round trip: NUL-free messages framed as `send` frames them, cut into any
   * chunks and dispatched from an empty pending text, are delivered exactly
   * and in order, leaving nothing pending.
   */
  lemma RoundTrip(msgs: seq<string>, chunks: seq<string>)
    requires AllFree(msgs)
    requires Concat(chunks) == Frames(msgs)
    ensures DispatchAll("", chunks) == (msgs, "")
  {
    DispatchAllIsSplit("", chunks);
    assert "" + Concat(chunks) == Frames(msgs) + "";
    SplitFramesOfFrames(msgs, "");
  }

  /** The transport's state. */
  class Transport {
    var pendingMessage: string
    var closed: bool
    /** Everything written to the outgoing pipe. */
    var written: string
    /** Messages handed to `onmessage`, in the order they were scheduled. */
    var delivered: seq<string>
    /** The messages sent so far. */
    ghost var sent: seq<string>

    /** The pending text holds no NUL, and the pipe holds the frames of what was sent. */
    ghost predicate Valid()
      reads this
    {
      Free(pendingMessage, NUL) && written == Frames(sent)
    }

    constructor ()
      ensures Valid()
      ensures pendingMessage == "" && !closed && written == "" && delivered == [] && sent == []
    {
      pendingMessage := "";
      closed := false;
      written := "";
      delivered := [];
      sent := [];
    }

    /**
     * `send`, given the `JSON.stringify` text of the message: throws once the
     * pipe is closed, writing nothing; otherwise writes the text and one NUL.
     */
    method Send(message: string) returns (error: Option<string>)
      requires Valid()
      modifies this`written, this`sent
      ensures Valid()
      ensures closed ==> error == Some(ClosedError) && written == old(written) && sent == old(sent)
      ensures !closed ==> error == None && written == old(written) + message + [NUL] && sent == old(sent) + [message]
    {
      if closed {
        return Some(ClosedError);
      }
      written := written + message;
      written := written + [NUL];
      FramesAppend(sent, message);
      sent := sent + [message];
      return None;
    }

    /** `_dispatch(buffer)`. */
    method Dispatch(buffer: string)
      requires Valid()
      modifies this`pendingMessage, this`delivered
      ensures Valid()
      ensures delivered == old(delivered) + DispatchStep(old(pendingMessage), buffer).0
      ensures pendingMessage == DispatchStep(old(pendingMessage), buffer).1
    {
      var end := IndexOf(buffer, NUL, 0);
      DispatchStepAt(pendingMessage, buffer, end);
      if end == -1 {
        NoNulInside(pendingMessage, buffer);
        pendingMessage := pendingMessage + buffer;
        return;
      }
      var message := pendingMessage + buffer[..end];
      ghost var later := SplitFrames(buffer[end + 1..]);
      DeliverOne(old(delivered), message, later.0, old(delivered) + ([message] + later.0));
      SplitFramesFree(buffer[end + 1..]);
      delivered := delivered + [message];
      var rest := DeliverFrom(buffer, end + 1);
      pendingMessage := rest;
    }

    /**
     * The loop of `_dispatch`: every further NUL-terminated message of
     * `buffer[start..]` is delivered in order; the unterminated tail is returned.
     */
    method DeliverFrom(buffer: string, start: nat) returns (rest: string)
      requires start <= |buffer|
      modifies this`delivered
      ensures delivered == old(delivered) + SplitFrames(buffer[start..]).0
      ensures rest == SplitFrames(buffer[start..]).1
    {
      ghost var total := old(delivered) + SplitFrames(buffer[start..]).0;
      ghost var tail := SplitFrames(buffer[start..]).1;
      CuttingInit(delivered, buffer, start);
      var from := start;
      var end := IndexOf(buffer, NUL, from);
      while end != -1
        invariant from <= |buffer|
        invariant end == IndexOf(buffer, NUL, from)
        invariant Cutting(delivered, buffer, from, total, tail)
        decreases |buffer| - from
      {
        CuttingStep(delivered, buffer, from, end, total, tail);
        var message := buffer[from..end];
        delivered := delivered + [message];
        from := end + 1;
        end := IndexOf(buffer, NUL, from);
      }
      CuttingDone(delivered, buffer, from, total, tail);
      rest := buffer[from..];
    }

    /** The read pipe's `close` event. Nothing sets `closed` back to false. */
    method OnClose()
      modifies this`closed
      ensures closed
    {
      closed := true;
    }
  }
}
