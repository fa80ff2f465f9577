/**
 The bounded reader over the host's streaming HTTP bridge. The host's replies
 are a parameter, so every contract holds for whatever the host answers.
 */
module HostStream {
  import opened Text

  datatype StreamError = BadLimit | OpenFailed | NoStreamID | ReadFailed | ChunkFailed | BodyTooLarge | CloseFailed

  /** `status` and `body` keep their zero values until the stream is open and closed again. */
  datatype HttpResult = HttpResult(status: int, body: string, failure: Option<StreamError>)

  /** What opening the stream meets: an ended context stops the call before it reaches the host. */
  datatype Opening = ContextEnded | Refused | Opened(status: int, streamID: string)

  datatype ReadReply = CallFailed | Chunk(payload: string, error: string, done: bool)

  datatype Call = OpenCall | ReadCall(id: string) | CloseCall(id: string)

  /** The payloads of a list of chunks, joined. */
  function Joined(replies: seq<ReadReply>): string {
    if replies == [] then ""
    else Joined(replies[..|replies| - 1]) + var last := replies[|replies| - 1]; if last.Chunk? then last.payload else ""
  }

  predicate Intact(reply: ReadReply) {
    reply.Chunk? && reply.error == ""
  }

  /** The first `n` replies are intact, not final, and fit the limit together. */
  ghost predicate ReadsOn(replies: seq<ReadReply>, limit: int, n: nat) {
    && n <= |replies|
    && (forall i | 0 <= i < n :: Intact(replies[i]) && !replies[i].done)
    && (forall i | 0 <= i <= n :: |Joined(replies[..i])| <= limit)
  }

  /** Reply `n` is the final chunk, and the whole body fits. */
  ghost predicate CompletesAt(replies: seq<ReadReply>, limit: int, n: nat) {
    && ReadsOn(replies, limit, n) && n < |replies|
    && Intact(replies[n]) && replies[n].done && |Joined(replies[..n + 1])| <= limit
  }

  /** Reply `n` is intact but takes the body over the limit. */
  ghost predicate OverflowsAt(replies: seq<ReadReply>, limit: int, n: nat) {
    && ReadsOn(replies, limit, n) && n < |replies|
    && Intact(replies[n]) && |Joined(replies[..n + 1])| > limit
  }

  /** The call for reply `n` fails, or the context ended before it. */
  ghost predicate FailsAt(replies: seq<ReadReply>, limit: int, n: nat) {
    ReadsOn(replies, limit, n) && (n == |replies| || replies[n].CallFailed?)
  }

  /** Reply `n` arrives and carries an error. */
  ghost predicate BreaksAt(replies: seq<ReadReply>, limit: int, n: nat) {
    ReadsOn(replies, limit, n) && n < |replies| && replies[n].Chunk? && replies[n].error != ""
  }

  ghost predicate Completes(replies: seq<ReadReply>, limit: int) {
    exists n: nat :: CompletesAt(replies, limit, n)
  }

  ghost predicate Overflows(replies: seq<ReadReply>, limit: int) {
    exists n: nat :: OverflowsAt(replies, limit, n)
  }

  lemma EmptyJoined()
    ensures Joined([]) == ""
  {
  }

  lemma JoinedAppend(replies: seq<ReadReply>, n: nat)
    requires n < |replies|
    ensures Joined(replies[..n + 1]) == Joined(replies[..n]) + if replies[n].Chunk? then replies[n].payload else ""
  {
    assert replies[..n + 1][..n] == replies[..n];
  }

  /** The read calls made when reading stops at reply `n`: none is made once the context has ended. */
  function ReadCalls(id: string, replies: seq<ReadReply>, n: nat): seq<Call> {
    seq(if n < |replies| then n + 1 else |replies|, _ => ReadCall(id))
  }

  ghost predicate StopsAt(replies: seq<ReadReply>, limit: int, n: nat, failure: Option<StreamError>, body: string) {
    match failure
    case None => CompletesAt(replies, limit, n) && body == Joined(replies[..n + 1])
    case Some(BodyTooLarge) => OverflowsAt(replies, limit, n)
    case Some(ReadFailed) => FailsAt(replies, limit, n)
    case Some(ChunkFailed) => BreaksAt(replies, limit, n)
    case Some(_) => false
  }

  class Client {
    /** The host callbacks made so far. */
    var calls: seq<Call>

    constructor ()
      ensures calls == []
    {
      calls := [];
    }

    /**
     `replies` are what the host answers to successive reads; running out of
     them is the caller's context ending, which stops the open and the reads
     before they reach the host but not the close calls.
     */
    method HTTPDoLimited(maxBodyBytes: int, stream: Opening, replies: seq<ReadReply>, closeWorks: bool)
      returns (response: HttpResult)
      modifies this
      ensures maxBodyBytes <= 0 ==> response == HttpResult(0, "", Some(BadLimit)) && calls == old(calls)
      ensures maxBodyBytes > 0 && stream.ContextEnded? ==>
                response == HttpResult(0, "", Some(OpenFailed)) && calls == old(calls)
      ensures maxBodyBytes > 0 && stream.Refused? ==>
                response == HttpResult(0, "", Some(OpenFailed)) && calls == old(calls) + [OpenCall]
      ensures maxBodyBytes > 0 && stream.Opened? && TrimSpace(stream.streamID) == "" ==>
                response == HttpResult(0, "", Some(NoStreamID)) && calls == old(calls) + [OpenCall]
      ensures maxBodyBytes > 0 && stream.Opened? && TrimSpace(stream.streamID) != "" ==>
                var id := TrimSpace(stream.streamID);
                && response.status == stream.status
                && (response.failure.Some? ==> response.body == "")
                && exists n: nat, read: Option<StreamError>, body: string ::
                     (&& StopsAt(replies, maxBodyBytes, n, read, body)
                      && (read.Some? ==> response.failure == read)
                      && (read.None? ==> response.failure == if closeWorks then None else Some(CloseFailed))
                      && (response.failure.None? ==> response.body == body)
                      && calls == old(calls) + [OpenCall] + ReadCalls(id, replies, n) + [CloseCall(id)]
                                  + (if response.failure == Some(CloseFailed) then [CloseCall(id)] else []))
    {
      if maxBodyBytes <= 0 {
        return HttpResult(0, "", Some(BadLimit));
      }
      if stream.ContextEnded? {
        return HttpResult(0, "", Some(OpenFailed));
      }
      calls := calls + [OpenCall];
      if stream.Refused? {
        return HttpResult(0, "", Some(OpenFailed));
      }
      var streamID := TrimSpace(stream.streamID);
      if streamID == "" {
        return HttpResult(0, "", Some(NoStreamID));
      }
      var closed := false;
      response := HttpResult(stream.status, "", None);
      var failure, body, n := ReadBody(streamID, maxBodyBytes, replies);
      ghost var afterReads := calls;
      response := response.(failure := failure);
      if failure.None? {
        calls := calls + [CloseCall(streamID)];
        if closeWorks {
          closed := true;
          response := response.(body := body);
        } else {
          response := response.(failure := Some(CloseFailed));
        }
      }
      if !closed {
        calls := calls + [CloseCall(streamID)];
      }
      assert StopsAt(replies, maxBodyBytes, n, failure, body);
    }

    /** The read loop: accumulates chunks until one is final, broken or too large. */
    method ReadBody(streamID: string, maxBodyBytes: int, replies: seq<ReadReply>)
      returns (failure: Option<StreamError>, body: string, ghost n: nat)
      requires maxBodyBytes > 0
      modifies this
      ensures StopsAt(replies, maxBodyBytes, n, failure, body)
      ensures calls == old(calls) + ReadCalls(streamID, replies, n)
      ensures |body| <= maxBodyBytes
    {
      hide Joined;
      assert Joined(replies[..0]) == "" by {
        EmptyJoined();
      }
      body := "";
      var next := 0;
      while true
        invariant ReadsOn(replies, maxBodyBytes, next)
        invariant body == Joined(replies[..next])
        invariant calls == old(calls) + seq(next, _ => ReadCall(streamID))
        decreases |replies| - next
      {
        n := next;
        if next == |replies| {
          return Some(ReadFailed), body, n;
        }
        var chunk := replies[next];
        calls := calls + [ReadCall(streamID)];
        assert calls == old(calls) + ReadCalls(streamID, replies, n);
        if chunk.CallFailed? {
          return Some(ReadFailed), body, n;
        }
        if chunk.error != "" {
          return Some(ChunkFailed), body, n;
        }
        JoinedAppend(replies, next);
        if |chunk.payload| > maxBodyBytes - |body| {
          return Some(BodyTooLarge), body, n;
        }
        body := body + chunk.payload;
        next := next + 1;
        if chunk.done {
          return None, body, n;
        }
      }
    }
  }

  /**
   Where and how reading stops is settled by the replies: it succeeds exactly
   when some reply completes the body, and fails on the limit exactly when some
   intact reply takes an intact body over it.
   */
  lemma StopIsUnique(replies: seq<ReadReply>, limit: int, n: nat, failure: Option<StreamError>, body: string)
    requires StopsAt(replies, limit, n, failure, body)
    ensures failure.None? <==> Completes(replies, limit)
    ensures failure == Some(BodyTooLarge) <==> Overflows(replies, limit)
    ensures forall m: nat, failure', body' :: StopsAt(replies, limit, m, failure', body') ==>
              m == n && failure' == failure && (failure.None? ==> body' == body)
    ensures failure.None? ==> |body| <= limit
  {
    forall m: nat
      ensures CompletesAt(replies, limit, m) || OverflowsAt(replies, limit, m) || FailsAt(replies, limit, m) || BreaksAt(replies, limit, m) ==> m == n
    {
    }
  }

  /** What the last reply adds. */
  lemma JoinedLast(replies: seq<ReadReply>, last: ReadReply)
    ensures Joined(replies + [last]) == Joined(replies) + if last.Chunk? then last.payload else ""
  {
    var all := replies + [last];
    assert all[..|all| - 1] == replies && all[|all| - 1] == last;
  }

  /** The body is the payloads in the order of the replies. */
  lemma {:induction false} JoinedInOrder(first: seq<ReadReply>, second: seq<ReadReply>)
    ensures Joined(first + second) == Joined(first) + Joined(second)
    decreases second
  {
    hide Joined;
    if second == [] {
      assert first + second == first;
      EmptyJoined();
    } else {
      var front, last := second[..|second| - 1], second[|second| - 1];
      assert second == front + [last] && first + second == (first + front) + [last];
      JoinedInOrder(first, front);
      JoinedLast(first + front, last);
      JoinedLast(front, last);
    }
  }

  /** One reply's part of the body is its payload. */
  lemma JoinedOne(reply: ReadReply)
    ensures Joined([reply]) == if reply.Chunk? then reply.payload else ""
  {
    EmptyJoined();
    JoinedLast([], reply);
    assert [] + [reply] == [reply];
  }
}
