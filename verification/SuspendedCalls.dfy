/** Calls on the stream object that the function does not await.

    `write` on a stream that has not started and `end` with data, or on such a stream, suspend in the middle. What is
    left of them resumes later, in the order in which they were suspended, and other calls may come before that. */
module SuspendedCalls {
  import opened Options
  import opened HttpStream

  /** The rest of a suspended call: of a write, of the write inside an end, or of an end. `tag` is the number of the call. */
  datatype Rest = ResumeWrite(tag: nat, chunk: Bytes) | ResumeWriteEnd(tag: nat, chunk: Bytes) | ResumeEnd

  /** The stream object with its suspended calls. `data` is what each call so far was given; `written` numbers the calls
      whose data should arrive, in order, and `sent` those whose data was emitted before the first end. */
  datatype State = State(started: bool, ended: bool, events: Log<Event>, queue: seq<Rest>,
                         data: seq<Bytes>, written: seq<nat>, sent: seq<nat>, endCalled: bool)

  const FRESH := State(false, false, Empty, [], [], [], [], false)

  datatype Act = Call(c: StreamCall) | Resume

  function DataOf(c: StreamCall): Bytes
  {
    match c
    case DoStart(_) => []
    case DoWrite(chunk) => chunk
    case DoEnd(rest) => if rest.Some? then rest.value else []
  }

  function Started(s: State, code: Option<int>): State
  {
    if s.started || s.ended then s
    else s.(started := true, events := Snoc(s.events, Start(if code.Some? then code.value else 200)))
  }

  function Sent(s: State, tag: nat, chunk: Bytes): State
  {
    if chunk == [] then s else s.(events := Snoc(s.events, Chunk(chunk)), sent := s.sent + [tag])
  }

  function Closed(s: State): State
  {
    s.(events := Snoc(s.events, End), ended := true)
  }

  function Suspended(s: State, rest: Rest): State
  {
    s.(queue := s.queue + [rest])
  }

  function Noted(s: State, c: StreamCall): State
  {
    s.(data := s.data + [DataOf(c)],
       written := if s.endCalled || DataOf(c) == [] then s.written else s.written + [|s.data|],
       endCalled := s.endCalled || c.DoEnd?)
  }

  /** A call, up to where it suspends or returns. */
  function Begun(s: State, c: StreamCall): State
  {
    var t, tag, chunk := Noted(s, c), |s.data|, DataOf(c);
    if t.ended then t
    else if c.DoStart? then Started(t, c.statusCode)
    else if !t.started then
      Suspended(Started(t, None),
                if c.DoWrite? then ResumeWrite(tag, chunk) else if c.rest.Some? then ResumeWriteEnd(tag, chunk) else ResumeEnd)
    else if c.DoWrite? then Sent(t, tag, chunk)
    else if c.rest.Some? then Suspended(Sent(t, tag, chunk), ResumeEnd)
    else Closed(t)
  }

  /** The call suspended longest goes on. A write that finds the stream closed throws, and so does the end around it. */
  function Resumed(s: State): State
  {
    if s.queue == [] then s else
      var t, r := s.(queue := s.queue[1..]), s.queue[0];
      match r
      case ResumeEnd => Closed(t)
      case ResumeWrite(tag, chunk) => if t.ended then t else Sent(t, tag, chunk)
      case ResumeWriteEnd(tag, chunk) => if t.ended then t else Suspended(Sent(t, tag, chunk), ResumeEnd)
  }

  function Do(s: State, a: Act): State
  {
    if a.Call? then Begun(s, a.c) else Resumed(s)
  }

  function DoAll(acts: Log<Act>): State
  {
    match acts
    case Empty => FRESH
    case Snoc(init, last) => Do(DoAll(init), last)
  }

  // ---------------------------------------------------------------- when nothing is lost or reordered

  /** The data of a suspended write that is still to be emitted. */
  function Waiting(s: State): seq<nat>
  {
    if s.queue != [] && !s.queue[0].ResumeEnd? && s.queue[0].chunk != [] then [s.queue[0].tag] else []
  }

  /** The call does not get ahead of a suspended write, nor does it send anything after an end was called. */
  predicate InTurn(s: State, c: StreamCall)
  {
    s.ended || c.DoStart? || (
      && (DataOf(c) != [] ==> Waiting(s) == [] && !s.endCalled)
      && (c.DoEnd? && c.rest.None? ==> Waiting(s) == []))
  }

  ghost predicate AllInTurn(acts: Log<Act>)
  {
    acts.Snoc? ==> AllInTurn(acts.init) && (acts.last.Call? ==> InTurn(DoAll(acts.init), acts.last.c))
  }

  /** Only the first call can be a suspended write. */
  ghost predicate Orderly(s: State)
  {
    && (!s.started ==> s.queue == [] && s.written == [] && s.sent == [] && !s.ended && !s.endCalled)
    && (forall i | 0 < i < |s.queue| :: s.queue[i].ResumeEnd?)
    && (s.queue != [] && !s.queue[0].ResumeEnd? ==> s.queue[0].tag < |s.data|)
    && (forall t <- s.sent :: t < |s.data|)
    && (Waiting(s) != [] ==> s.sent == [])
    && (s.ended || |s.queue| > 1 || (s.queue != [] && !s.queue[0].ResumeWrite?) ==> s.endCalled)
  }

  ghost predicate Good(s: State)
  {
    Orderly(s) && s.written == s.sent + Waiting(s) && (s.ended ==> Waiting(s) == [])
  }

  /** Beyond repair: the first data is not the first written, or something was sent after an end was called, or something
      written is missing at the end. */
  ghost predicate Bad(s: State)
  {
    || (s.sent != [] && s.written != [] && s.sent[0] != s.written[0])
    || (s.endCalled && exists t <- s.sent :: t !in s.written)
    || (s.ended && exists t <- s.written :: t !in s.sent)
  }

  lemma BadDiffers(s: State)
    requires Bad(s)
    ensures s.sent != s.written
  {
  }

  lemma BadStays(s: State, a: Act)
    requires Bad(s)
    ensures Bad(Do(s, a))
  {
    var t := Do(s, a);
    assert s.ended ==> t.sent == s.sent;
    assert s.endCalled ==> t.written == s.written;
    assert s.sent <= t.sent && s.written <= t.written;
    if s.endCalled && exists k <- s.sent :: k !in s.written {
      var k :| k in s.sent && k !in s.written;
      assert k in t.sent;
    }
    if s.ended && exists k <- s.written :: k !in s.sent {
      var k :| k in s.written && k !in s.sent;
      assert k in t.written;
    }
  }

  lemma ResumeStaysGood(s: State)
    requires Good(s)
    ensures Good(Resumed(s))
  {
  }

  lemma WriteStaysGood(s: State, c: StreamCall)
    requires Good(s) && c.DoWrite? && InTurn(s, c)
    ensures Good(Begun(s, c))
  {
  }

  lemma EndStaysGood(s: State, c: StreamCall)
    requires Good(s) && c.DoEnd? && InTurn(s, c)
    ensures Good(Begun(s, c))
  {
  }

  lemma CallStaysGood(s: State, c: StreamCall)
    requires Good(s) && InTurn(s, c)
    ensures Good(Begun(s, c))
  {
    if c.DoWrite? {
      WriteStaysGood(s, c);
    } else if c.DoEnd? {
      EndStaysGood(s, c);
    }
  }

  lemma OutOfTurnIsBad(s: State, c: StreamCall)
    requires Good(s) && !InTurn(s, c)
    ensures Bad(Begun(s, c))
  {
    var t := Begun(s, c);
    if Waiting(s) != [] {
      assert s.written == [s.queue[0].tag];
      if DataOf(c) != [] {
        assert t.sent[0] == |s.data|;
      } else {
        assert s.queue[0].tag in t.written;
      }
    } else {
      assert |s.data| in t.sent;
    }
  }

  lemma {:induction false} GoodOrBad(acts: Log<Act>)
    ensures if AllInTurn(acts) then Good(DoAll(acts)) else Bad(DoAll(acts))
  {
    if acts.Snoc? {
      GoodOrBad(acts.init);
      var s := DoAll(acts.init);
      if !AllInTurn(acts.init) {
        BadStays(s, acts.last);
      } else if acts.last.Resume? {
        ResumeStaysGood(s);
      } else if InTurn(s, acts.last.c) {
        CallStaysGood(s, acts.last.c);
      } else {
        OutOfTurnIsBad(s, acts.last.c);
      }
    }
  }

  /** Once no call is suspended: what was written was sent, all of it and in order, if and only if no call got ahead of a
      suspended write or sent data after an end was called. */
  lemma InOrderIffInTurn(acts: Log<Act>)
    requires DoAll(acts).queue == []
    ensures DoAll(acts).sent == DoAll(acts).written <==> AllInTurn(acts)
  {
    GoodOrBad(acts);
    if !AllInTurn(acts) {
      BadDiffers(DoAll(acts));
    }
  }

  // ---------------------------------------------------------------- in bytes

  function CallsOf(acts: Log<Act>): Log<StreamCall>
  {
    match acts
    case Empty => Log.Empty
    case Snoc(init, last) => if last.Call? then Snoc(CallsOf(init), last.c) else CallsOf(init)
  }

  /** The data of the first `n` numbered calls, put together. */
  ghost function JoinedTo(tags: seq<nat>, data: seq<Bytes>, n: nat): Bytes
    requires n <= |tags|
  {
    if n == 0 then [] else JoinedTo(tags, data, n - 1) + if tags[n - 1] < |data| then data[tags[n - 1]] else []
  }

  ghost function Joined(tags: seq<nat>, data: seq<Bytes>): Bytes
  {
    JoinedTo(tags, data, |tags|)
  }

  lemma {:induction false} JoinedToSnoc(tags: seq<nat>, tag: nat, data: seq<Bytes>, n: nat)
    requires n <= |tags|
    ensures JoinedTo(tags + [tag], data, n) == JoinedTo(tags, data, n)
  {
    if n > 0 {
      JoinedToSnoc(tags, tag, data, n - 1);
    }
  }

  lemma JoinedSnoc(tags: seq<nat>, tag: nat, data: seq<Bytes>)
    requires tag < |data|
    ensures Joined(tags + [tag], data) == Joined(tags, data) + data[tag]
  {
    JoinedToSnoc(tags, tag, data, |tags|);
  }

  lemma {:induction false} JoinedToKept(tags: seq<nat>, data: seq<Bytes>, more: Bytes, n: nat)
    requires n <= |tags| && forall t <- tags :: t < |data|
    ensures JoinedTo(tags, data + [more], n) == JoinedTo(tags, data, n)
  {
    if n > 0 {
      assert tags[n - 1] in tags;
      JoinedToKept(tags, data, more, n - 1);
    }
  }

  lemma JoinedKept(tags: seq<nat>, data: seq<Bytes>, more: Bytes)
    requires forall t <- tags :: t < |data|
    ensures Joined(tags, data + [more]) == Joined(tags, data)
  {
    JoinedToKept(tags, data, more, |tags|);
  }

  /** Tags number calls, and suspended writes hold the data of theirs. */
  ghost predicate Tagged(s: State)
  {
    && (forall t <- s.sent :: t < |s.data|) && (forall t <- s.written :: t < |s.data|)
    && (forall i | 0 <= i < |s.queue| && !s.queue[i].ResumeEnd? :: s.queue[i].tag < |s.data| && s.data[s.queue[i].tag] == s.queue[i].chunk)
  }

  /** The events carry the data that was sent. */
  ghost predicate Carries(s: State)
  {
    Tagged(s) && Streamed(s.events) == Joined(s.sent, s.data) && (HasEnd(s.events) <==> s.ended)
  }

  lemma SentCarries(s: State, tag: nat, chunk: Bytes)
    requires Carries(s) && !s.ended && tag < |s.data| && s.data[tag] == chunk
    ensures Carries(Sent(s, tag, chunk))
  {
    JoinedSnoc(s.sent, tag, s.data);
  }

  lemma NotedCarries(s: State, c: StreamCall)
    requires Carries(s)
    ensures Carries(Noted(s, c)) && Noted(s, c).data[|s.data|] == DataOf(c)
  {
    JoinedKept(s.sent, s.data, DataOf(c));
  }

  lemma CallCarries(s: State, c: StreamCall)
    requires Carries(s)
    ensures Carries(Begun(s, c))
  {
    var t := Noted(s, c);
    NotedCarries(s, c);
    if !t.ended && t.started && !c.DoStart? {
      SentCarries(t, |s.data|, DataOf(c));
    }
  }

  lemma ResumeCarries(s: State)
    requires Carries(s)
    ensures Carries(Resumed(s))
  {
    if s.queue != [] {
      var t, r := s.(queue := s.queue[1..]), s.queue[0];
      assert Carries(t);
      if !r.ResumeEnd? && !t.ended {
        SentCarries(t, r.tag, r.chunk);
      }
    }
  }

  lemma {:induction false} EventsCarrySent(acts: Log<Act>)
    ensures Carries(DoAll(acts))
  {
    if acts.Snoc? {
      EventsCarrySent(acts.init);
      if acts.last.Call? {
        CallCarries(DoAll(acts.init), acts.last.c);
      } else {
        ResumeCarries(DoAll(acts.init));
      }
    }
  }

  lemma AlwaysTagged(acts: Log<Act>)
    ensures Tagged(DoAll(acts))
  {
    EventsCarrySent(acts);
  }

  lemma {:induction false} WrittenIsJoined(acts: Log<Act>)
    ensures Written(CallsOf(acts)) == Joined(DoAll(acts).written, DoAll(acts).data)
    ensures Ended(CallsOf(acts)) <==> DoAll(acts).endCalled
  {
    if acts.Snoc? {
      WrittenIsJoined(acts.init);
      if acts.last.Call? {
        AlwaysTagged(acts.init);
        NoteWritten(DoAll(acts.init), acts.last.c);
      }
    }
  }

  lemma NoteWritten(s: State, c: StreamCall)
    requires Tagged(s)
    ensures var t := Begun(s, c);
      && Joined(t.written, t.data) == Joined(s.written, s.data) + (if s.endCalled then [] else DataOf(c))
      && t.endCalled == (s.endCalled || c.DoEnd?)
  {
    JoinedKept(s.written, s.data, DataOf(c));
    JoinedSnoc(s.written, |s.data|, s.data + [DataOf(c)]);
  }

  /** When every call is in turn and none is suspended any more, the events carry exactly what the function wrote. */
  lemma InTurnIsFaithful(acts: Log<Act>)
    requires AllInTurn(acts) && DoAll(acts).queue == []
    ensures Streamed(DoAll(acts).events) == Written(CallsOf(acts))
  {
    InOrderIffInTurn(acts);
    EventsCarrySent(acts);
    WrittenIsJoined(acts);
  }

  /** Two writes that are not awaited arrive in the wrong order. */
  lemma SecondWriteOvertakes(a: Bytes, b: Bytes)
    requires a != [] && b != []
    ensures var s := DoAll(Snoc(Snoc(Snoc(Empty, Call(DoWrite(a))), Call(DoWrite(b))), Resume));
      s.queue == [] && Streamed(s.events) == b + a
  {
    var s1 := Begun(FRESH, DoWrite(a));
    assert DoAll(Snoc(Empty, Call(DoWrite(a)))) == s1;
    var s2 := Begun(s1, DoWrite(b));
    assert DoAll(Snoc(Snoc(Empty, Call(DoWrite(a))), Call(DoWrite(b)))) == s2;
    assert s2.events == Snoc(Snoc(Empty, Start(200)), Chunk(b));
    assert Resumed(s2).events == Snoc(s2.events, Chunk(a));
    assert Streamed(s2.events) == b by {
      assert Streamed(Snoc(Empty, Start(200))) == [];
    }
  }

  /** An end that comes before an unawaited write is done loses the data. */
  lemma EndLosesWrite(a: Bytes)
    requires a != []
    ensures var s := DoAll(Snoc(Snoc(Snoc(Empty, Call(DoWrite(a))), Call(DoEnd(None))), Resume));
      s.queue == [] && Streamed(s.events) == []
  {
    var s1 := Begun(FRESH, DoWrite(a));
    assert DoAll(Snoc(Empty, Call(DoWrite(a)))) == s1;
    var s2 := Begun(s1, DoEnd(None));
    assert DoAll(Snoc(Snoc(Empty, Call(DoWrite(a))), Call(DoEnd(None)))) == s2;
    assert s2.events == Snoc(Snoc(Empty, Start(200)), End);
    assert Streamed(Snoc(Empty, Start(200))) == [];
  }

  // ---------------------------------------------------------------- calls that are awaited

  /** No call is made while another is suspended. */
  ghost predicate AllAwaited(acts: Log<Act>)
  {
    acts.Snoc? ==> AllAwaited(acts.init) && (acts.last.Call? ==> DoAll(acts.init).queue == [])
  }

  function WithChunk(events: Log<Event>, chunk: Bytes): Log<Event>
  {
    if chunk == [] then events else Snoc(events, Chunk(chunk))
  }

  /** Where the stream will be once the one suspended call is done. */
  function WillBe(s: State): Stream
  {
    if s.queue == [] then Stream(s.started, s.ended, s.events)
    else
      match s.queue[0]
      case ResumeWrite(_, chunk) => Stream(true, false, WithChunk(s.events, chunk))
      case ResumeWriteEnd(_, chunk) => Stream(true, true, Snoc(WithChunk(s.events, chunk), End))
      case ResumeEnd => Stream(true, true, Snoc(s.events, End))
  }

  /** Awaited calls have the effect they would have in one go. */
  lemma {:induction false} AwaitedIsAtomic(acts: Log<Act>)
    requires AllAwaited(acts)
    ensures var s := DoAll(acts);
      && WillBe(s) == DoCalls(IDLE, CallsOf(acts))
      && |s.queue| <= 1 && (s.ended ==> s.started) && (s.queue != [] ==> s.started && !s.ended)
  {
    if acts.Snoc? {
      AwaitedIsAtomic(acts.init);
    }
  }
}
