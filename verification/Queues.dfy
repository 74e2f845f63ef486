/**
 The outgoing queue of the client's control channel: send and do_flush_queue of src/client/WsClient.cpp.

 Senders run on other threads than the reader thread that flushes and completes writes. A send is two
 steps, the push under the mutex and the post of a flush, with anything in between.
 */
module ClientQueue {

  datatype State = State(
    connected: bool,
    /** reader_running_: before it is set, a send writes at once. */
    running: bool,
    queue: seq<string>,
    /** Pushes whose flush has not been posted yet, and flushes posted but not run. */
    unposted: nat,
    posted: nat,
    /** Writes handed to the stream and not completed, and async_write_pending_. */
    inFlight: seq<string>,
    pending: bool,
    accepted: seq<string>,
    written: seq<string>,
    /** The message of a write that failed. */
    lost: seq<string>)

  function Connected(): (r: State) { State(true, false, [], 0, 0, [], false, [], [], []) }

  /** do_flush_queue. */
  function Flush(st: State): (r: State) {
    if !st.connected || st.pending || st.queue == [] then st
    else st.(queue := st.queue[1..], pending := true, inFlight := st.inFlight + [st.queue[0]])
  }

  datatype Event =
    | Push(text: string)
    | Post
    | SyncSend(text: string, ok: bool)
    | StartReader
    | RunFlush
    | ReadDone(ok: bool)
    | WriteDone(ok: bool)
    | Close

  predicate Enabled(st: State, e: Event) {
    match e
    case Push(_) => st.connected && st.running
    case Post => st.unposted > 0
    case SyncSend(_, _) => st.connected && !st.running
    case StartReader => st.connected && !st.running
    case RunFlush => st.posted > 0
    case ReadDone(_) => st.connected && st.running
    case WriteDone(_) => st.inFlight != []
    case Close => true
  }

  /** An event that cannot happen changes nothing. */
  function Next(st: State, e: Event): (r: State) {
    if !Enabled(st, e) then st
    else match e
      case Push(text) => st.(queue := st.queue + [text], unposted := st.unposted + 1, accepted := st.accepted + [text])
      case Post => st.(unposted := st.unposted - 1, posted := st.posted + 1)
      case SyncSend(text, ok) =>
        if ok then st.(accepted := st.accepted + [text], written := st.written + [text]) else st.(connected := false)
      case StartReader => st.(running := true)
      case RunFlush => Flush(st.(posted := st.posted - 1))
      case ReadDone(ok) => if ok then Flush(st) else st.(connected := false)
      case WriteDone(ok) => Completed(st, ok)
      case Close => st.(running := false, connected := false)
  }

  /** The completion handler of a write. */
  function Completed(st: State, ok: bool): (r: State)
    requires st.inFlight != []
  {
    var done := st.(pending := false, inFlight := st.inFlight[1..]);
    if ok then Flush(done.(written := st.written + [st.inFlight[0]]))
    else done.(connected := false, lost := st.lost + [st.inFlight[0]])
  }

  function Run(st: State, events: seq<Event>): (r: State)
    decreases events
  {
    if events == [] then st else Run(Next(st, events[0]), events[1..])
  }

  /** Everything accepted is written, lost, in flight or queued, in that order; one write at a time. */
  ghost predicate Conserved(st: State) {
    && st.accepted == st.written + st.lost + st.inFlight + st.queue
    && |st.inFlight| == (if st.pending then 1 else 0)
    && (st.lost != [] ==> !st.connected && st.inFlight == [])
  }

  /** Conserved, and while healthy a queued message has a write in flight or a flush on its way. */
  ghost predicate Inv(st: State) {
    && Conserved(st)
    && (st.connected && st.queue != [] ==> st.running && (st.inFlight != [] || st.posted + st.unposted > 0))
    && (st.connected && st.inFlight != [] ==> st.running)
  }

  lemma FlushKeeps(st: State)
    requires Conserved(st) && (st.connected ==> st.running)
    ensures Inv(Flush(st))
  {
    if st.queue != [] {
      assert st.queue == [st.queue[0]] + st.queue[1..];
    }
  }

  lemma CompletedKeeps(st: State, ok: bool)
    requires Inv(st) && st.inFlight != []
    ensures Inv(Completed(st, ok))
  {
    hide Flush;
    var head := st.inFlight[0];
    assert st.inFlight == [head] && st.inFlight[1..] == [];
    if ok {
      var done := st.(pending := false, inFlight := [], written := st.written + [head]);
      assert st.written + [] + [head] + st.queue == (st.written + [head]) + [] + [] + st.queue;
      FlushKeeps(done);
    }
  }

  lemma NextKeeps(st: State, e: Event)
    requires Inv(st)
    ensures Inv(Next(st, e))
  {
    hide Flush, Completed;
    if Enabled(st, e) {
      match e
      case Push(text) =>
        assert st.written + st.lost + st.inFlight + (st.queue + [text])
            == (st.written + st.lost + st.inFlight + st.queue) + [text];
      case SyncSend(text, _) =>
        assert st.queue == [] && st.inFlight == [];
      case RunFlush =>
        if st.connected && !st.running {
          FlushIdle(st.(posted := st.posted - 1));
        } else {
          FlushKeeps(st.(posted := st.posted - 1));
        }
      case ReadDone(ok) => FlushKeeps(st);
      case WriteDone(ok) => CompletedKeeps(st, ok);
      case Post =>
      case StartReader =>
      case Close =>
    }
  }

  lemma FlushIdle(st: State)
    requires st.queue == []
    ensures Flush(st) == st
  {
  }

  lemma {:induction false} RunKeeps(st: State, events: seq<Event>)
    requires Inv(st)
    ensures Inv(Run(st, events))
    decreases events
  {
    hide Inv, Next;
    if events != [] {
      NextKeeps(st, events[0]);
      RunKeeps(Next(st, events[0]), events[1..]);
    }
  }

  /**
   In every interleaving of sends, posts, flushes, reads and completions: at most one write is in flight,
   what has been written is a prefix of what was accepted, at most the message of one failed write is
   lost, and while the connection is healthy nothing is lost and no queued message is forgotten.
   */
  lemma FifoNoLostWakeUp(events: seq<Event>)
    ensures var st := Run(Connected(), events);
            && |st.inFlight| <= 1 && |st.lost| <= 1
            && st.written <= st.accepted
            && st.accepted == st.written + st.lost + st.inFlight + st.queue
            && (st.connected ==> st.lost == [])
            && (st.connected && st.queue != [] ==> st.inFlight != [] || st.posted + st.unposted > 0)
  {
    hide Run;
    RunKeeps(Connected(), events);
    LostOnce(Connected(), events);
  }

  lemma {:induction false} LostOnce(st: State, events: seq<Event>)
    requires Inv(st) && |st.lost| <= 1
    ensures |Run(st, events).lost| <= 1
    decreases events
  {
    if events != [] {
      NextKeeps(st, events[0]);
      LostOnce(Next(st, events[0]), events[1..]);
    }
  }

  // ----- The end of a connection -----

  /**
   A connection ends exactly by a failed read, a failed write, or being closed, and only closing it stops the reader.
   */
  lemma EndsExactly(st: State, e: Event)
    requires st.connected
    ensures !Next(st, e).connected <==>
            || (e == ReadDone(false) && st.running) || (e == WriteDone(false) && st.inFlight != [])
            || (e.SyncSend? && !e.ok && !st.running) || e.Close?
    ensures Next(st, e).running <==> (st.running || e.StartReader?) && !e.Close?
  {
  }

  /** Then it stays ended: nothing more is accepted, and at most the write in flight still gets written. */
  lemma {:induction false} EndedStays(st: State, events: seq<Event>)
    requires Inv(st) && !st.connected
    ensures var end := Run(st, events);
            && !end.connected && end.accepted == st.accepted && end.queue == st.queue
            && (end.written == st.written || end.written == st.written + st.inFlight)
    decreases events
  {
    if events != [] {
      EndedStep(st, events[0]);
      NextKeeps(st, events[0]);
      hide Next, Inv;
      EndedStays(Next(st, events[0]), events[1..]);
    }
  }

  lemma EndedStep(st: State, e: Event)
    requires Inv(st) && !st.connected
    ensures var next := Next(st, e);
            && !next.connected && next.accepted == st.accepted && next.queue == st.queue
            && ((next.written == st.written && next.inFlight == st.inFlight)
                || (next.inFlight == [] && (next.written == st.written || next.written == st.written + st.inFlight)))
  {
  }

  // ----- Everything accepted gets written -----

  /** A step the system takes by itself, with no write failing. */
  predicate Own(e: Event) { e.Post? || e.RunFlush? || e == WriteDone(true) }

  predicate OwnRun(st: State, events: seq<Event>)
    decreases events
  {
    events == [] || (Own(events[0]) && Enabled(st, events[0]) && OwnRun(Next(st, events[0]), events[1..]))
  }

  function Work(st: State): (r: nat) { 2 * st.unposted + st.posted + 2 * |st.queue| + |st.inFlight| }

  predicate Quiet(st: State) { st.unposted == 0 && st.posted == 0 && st.inFlight == [] }

  lemma OwnStep(st: State, e: Event)
    requires Inv(st) && st.connected && Own(e) && Enabled(st, e)
    ensures var next := Next(st, e); Work(next) < Work(st) && next.connected && next.accepted == st.accepted
  {
  }

  /**
   Left to itself, a healthy connection stops working after a bounded number of steps, whatever their
   order, and then every accepted message has been written.
   */
  lemma {:induction false} EverythingIsWritten(st: State, events: seq<Event>)
    requires Inv(st) && st.connected && OwnRun(st, events)
    ensures |events| <= Work(st)
    ensures Quiet(Run(st, events)) ==> Run(st, events).written == st.accepted
    ensures !Quiet(Run(st, events)) ==> exists e :: Own(e) && Enabled(Run(st, events), e)
    decreases events
  {
    hide Next, Work;
    if events == [] {
      QuietOrNot(st);
    } else {
      OwnStep(st, events[0]);
      NextKeeps(st, events[0]);
      EverythingIsWritten(Next(st, events[0]), events[1..]);
    }
  }

  lemma QuietOrNot(st: State)
    requires Inv(st) && st.connected
    ensures Quiet(st) ==> st.written == st.accepted
    ensures !Quiet(st) ==> exists e :: Own(e) && Enabled(st, e)
  {
    if st.unposted > 0 {
      assert Own(Post) && Enabled(st, Post);
    } else if st.posted > 0 {
      assert Own(RunFlush) && Enabled(st, RunFlush);
    } else if st.inFlight != [] {
      assert Own(WriteDone(true)) && Enabled(st, WriteDone(true));
    }
  }

  // ----- What is sent is written -----

  /** The two halves of a send, the flush it asked for, and the write that flush started. */
  function Deliveries(texts: seq<string>): (r: seq<Event>) {
    if texts == [] then [] else [Push(texts[0]), Post, RunFlush, WriteDone(true)] + Deliveries(texts[1..])
  }

  function SyncSends(texts: seq<string>): (r: seq<Event>) {
    if texts == [] then [] else [SyncSend(texts[0], true)] + SyncSends(texts[1..])
  }

  lemma {:induction false} RunConcat(st: State, a: seq<Event>, b: seq<Event>)
    ensures Run(st, a + b) == Run(Run(st, a), b)
    decreases a
  {
    hide Next;
    if a == [] {
      assert a + b == b;
    } else {
      assert (a + b)[1..] == a[1..] + b;
      RunConcat(Next(st, a[0]), a[1..], b);
    }
  }

  lemma OneDelivery(st: State, text: string)
    requires st.connected && st.running && Quiet(st) && !st.pending && st.queue == []
    ensures Run(st, [Push(text), Post, RunFlush, WriteDone(true)])
         == st.(accepted := st.accepted + [text], written := st.written + [text])
  {
    var queued := Next(Next(st, Push(text)), Post);
    var flushed := Next(queued, RunFlush);
    assert flushed.queue == [] && flushed.inFlight == [text];
    assert Next(flushed, WriteDone(true)) == st.(accepted := st.accepted + [text], written := st.written + [text]);
    hide Next;
    assert [Push(text), Post, RunFlush, WriteDone(true)][1..] == [Post, RunFlush, WriteDone(true)];
    assert [Post, RunFlush, WriteDone(true)][1..] == [RunFlush, WriteDone(true)];
    assert [RunFlush, WriteDone(true)][1..] == [WriteDone(true)];
  }

  lemma {:induction false} Delivered(st: State, texts: seq<string>)
    requires st.connected && st.running && Quiet(st) && !st.pending && st.queue == []
    ensures Run(st, Deliveries(texts)) == st.(accepted := st.accepted + texts, written := st.written + texts)
    decreases texts
  {
    if texts == [] {
      assert st.accepted + texts == st.accepted && st.written + texts == st.written;
    } else {
      hide Next;
      var first := [Push(texts[0]), Post, RunFlush, WriteDone(true)];
      OneDelivery(st, texts[0]);
      RunConcat(st, first, Deliveries(texts[1..]));
      Delivered(Run(st, first), texts[1..]);
      assert st.accepted + [texts[0]] + texts[1..] == st.accepted + texts;
      assert st.written + [texts[0]] + texts[1..] == st.written + texts;
    }
  }

  lemma OneSync(st: State, text: string)
    requires st.connected && !st.running
    ensures Next(st, SyncSend(text, true)) == st.(accepted := st.accepted + [text], written := st.written + [text])
  {
  }

  lemma {:induction false} SyncDelivered(st: State, texts: seq<string>)
    requires st.connected && !st.running
    ensures Run(st, SyncSends(texts)) == st.(accepted := st.accepted + texts, written := st.written + texts)
    decreases texts
  {
    hide Next;
    if texts == [] {
      assert st.accepted + texts == st.accepted && st.written + texts == st.written;
    } else {
      OneSync(st, texts[0]);
      var next := st.(accepted := st.accepted + [texts[0]], written := st.written + [texts[0]]);
      SyncDelivered(next, texts[1..]);
      var events := SyncSends(texts);
      assert events[0] == SyncSend(texts[0], true) && events[1..] == SyncSends(texts[1..]);
      assert Run(st, events) == Run(next, events[1..]);
      assert st.accepted + [texts[0]] + texts[1..] == st.accepted + texts;
      assert st.written + [texts[0]] + texts[1..] == st.written + texts;
    }
  }

  /**
   A new connection writes what is sent before the reader starts and what is sent after it, in that order, and has
   then nothing left to do.
   */
  lemma SentIsWritten(before: seq<string>, after: seq<string>)
    ensures var end := Run(Connected(), SyncSends(before) + [StartReader] + Deliveries(after));
            && end.connected && end.running && Quiet(end) && end.queue == []
            && end.written == before + after && end.accepted == before + after
  {
    var plain := Run(Connected(), SyncSends(before));
    SyncDelivered(Connected(), before);
    RunConcat(Connected(), SyncSends(before) + [StartReader], Deliveries(after));
    RunConcat(Connected(), SyncSends(before), [StartReader]);
    assert Run(plain, [StartReader]) == Run(Next(plain, StartReader), []);
    Delivered(Next(plain, StartReader), after);
    assert [] + before + after == before + after;
  }

  // ----- The object -----

  class WsClient {
    var connected: bool
    var readerRunning: bool
    var queue: seq<string>
    var posted: nat
    var asyncWritePending: bool
    var inFlight: seq<string>
    var accepted: seq<string>
    var written: seq<string>
    var lost: seq<string>

    /** Between its methods every push has been posted. */
    function View(): (r: State)
      reads this
    {
      State(connected, readerRunning, queue, 0, posted, inFlight, asyncWritePending, accepted, written, lost)
    }

    constructor ()
      ensures View() == Connected()
    {
      connected, readerRunning, asyncWritePending := true, false, false;
      queue, inFlight, accepted, written, lost := [], [], [], [], [];
      posted := 0;
    }

    /** `ok` is whether a write made at once succeeds. */
    method Send(text: string, ok: bool) returns (sent: bool)
      modifies this
      ensures sent == (old(connected) && (old(readerRunning) || ok))
      ensures View() == if old(readerRunning) then Next(Next(old(View()), Push(text)), Post)
              else Next(old(View()), SyncSend(text, ok))
    {
      if !connected {
        return false;
      }
      if readerRunning {
        queue := queue + [text];
        accepted := accepted + [text];
        posted := posted + 1;
        return true;
      }
      if ok {
        accepted := accepted + [text];
        written := written + [text];
        return true;
      }
      connected := false;
      return false;
    }

    method StartAsync()
      modifies this
      ensures View() == Next(old(View()), StartReader)
    {
      if readerRunning {
        return;
      }
      if connected {
        readerRunning := true;
      }
    }

    method DoFlushQueue()
      modifies this
      ensures View() == Flush(old(View()))
    {
      if !connected || asyncWritePending {
        return;
      }
      if queue == [] {
        return;
      }
      var payload := queue[0];
      queue := queue[1..];
      asyncWritePending := true;
      inFlight := inFlight + [payload];
    }

    method RunPosted()
      requires posted > 0
      modifies this
      ensures View() == Next(old(View()), RunFlush)
    {
      hide Flush;
      posted := posted - 1;
      DoFlushQueue();
    }

    method OnWritten(ok: bool)
      requires inFlight != []
      modifies this
      ensures View() == Next(old(View()), WriteDone(ok))
    {
      hide Flush;
      var text := inFlight[0];
      inFlight := inFlight[1..];
      asyncWritePending := false;
      if !ok {
        lost := lost + [text];
        connected := false;
        return;
      }
      written := written + [text];
      DoFlushQueue();
    }

    method OnRead(ok: bool)
      modifies this
      ensures View() == Next(old(View()), ReadDone(ok))
    {
      hide Flush;
      if !readerRunning || !connected {
        return;
      }
      if !ok {
        connected := false;
        return;
      }
      DoFlushQueue();
    }
  }
}

/**
 The server's side of a control session: sending, writing, authentication and disconnect reports of
 src/ws/ws_session.cpp, and of src/ws/wss_session.cpp, which differs only in its stream.
 */
module SessionQueue {

  datatype State = State(
    /** Messages posted to the strand by send_json and not yet queued. */
    posts: seq<string>,
    queue: seq<string>,
    writing: bool,
    /** Writes handed to the stream and not completed. */
    inFlight: seq<string>,
    /** A write has failed. */
    broken: bool,
    accepted: seq<string>,
    written: seq<string>)

  function Opened(): (r: State) { State([], [], false, [], false, [], []) }

  /** do_write. */
  function StartWrite(st: State): (r: State) {
    if st.queue == [] then st.(writing := false) else st.(writing := true, inFlight := st.inFlight + [st.queue[0]])
  }

  datatype Event = Send(text: string) | RunPost | WriteDone(ok: bool)

  predicate Enabled(st: State, e: Event) {
    match e
    case Send(_) => true
    case RunPost => st.posts != []
    case WriteDone(_) => st.inFlight != [] && st.queue != []
  }

  function Next(st: State, e: Event): (r: State) {
    if !Enabled(st, e) then st
    else match e
      case Send(text) => st.(posts := st.posts + [text], accepted := st.accepted + [text])
      case RunPost =>
        var pushed := st.(posts := st.posts[1..], queue := st.queue + [st.posts[0]]);
        if st.writing then pushed else StartWrite(pushed)
      case WriteDone(ok) =>
        var done := st.(inFlight := st.inFlight[1..]);
        if ok then StartWrite(done.(queue := st.queue[1..], written := st.written + [st.inFlight[0]]))
        else done.(broken := true)
  }

  function Run(st: State, events: seq<Event>): (r: State)
    decreases events
  {
    if events == [] then st else Run(Next(st, events[0]), events[1..])
  }

  /** The front of the queue is the one write in flight, unless a write has failed, and then no other starts. */
  ghost predicate Inv(st: State) {
    && st.accepted == st.written + st.queue + st.posts
    && (st.writing <==> st.queue != [])
    && st.inFlight == (if st.writing && !st.broken then [st.queue[0]] else [])
    && (st.broken ==> st.writing)
  }

  lemma NextKeeps(st: State, e: Event)
    requires Inv(st)
    ensures Inv(Next(st, e)) && (st.broken ==> Next(st, e).broken && Next(st, e).written == st.written)
  {
    if Enabled(st, e) {
      match e
      case Send(text) =>
        assert st.written + st.queue + (st.posts + [text]) == (st.written + st.queue + st.posts) + [text];
      case RunPost =>
        assert st.posts == [st.posts[0]] + st.posts[1..];
        assert st.written + (st.queue + [st.posts[0]]) + st.posts[1..] == st.written + st.queue + st.posts;
      case WriteDone(ok) =>
        assert st.queue == [st.queue[0]] + st.queue[1..];
        assert (st.written + [st.queue[0]]) + st.queue[1..] + st.posts == st.written + st.queue + st.posts;
    }
  }

  lemma {:induction false} RunKeeps(st: State, events: seq<Event>)
    requires Inv(st)
    ensures Inv(Run(st, events)) && (st.broken ==> Run(st, events).broken && Run(st, events).written == st.written)
    decreases events
  {
    hide Inv, Next;
    if events != [] {
      NextKeeps(st, events[0]);
      RunKeeps(Next(st, events[0]), events[1..]);
    }
  }

  /**
   In every interleaving of sends, strand handlers and completions: at most one write is in flight, written
   messages are a prefix of accepted ones, nothing is lost from the queue, and until a write fails a queued
   message always has a write in flight. After a failed write nothing is ever written again.
   */
  lemma FifoNoLostWakeUp(events: seq<Event>, later: seq<Event>)
    ensures var st := Run(Opened(), events);
            && |st.inFlight| <= 1 && st.written <= st.accepted
            && st.accepted == st.written + st.queue + st.posts
            && (!st.broken ==> (st.queue != [] <==> st.inFlight != []))
            && (st.broken ==> Run(st, later).written == st.written)
  {
    hide Run;
    RunKeeps(Opened(), events);
    RunKeeps(Run(Opened(), events), later);
  }

  predicate Own(e: Event) { e.RunPost? || e == WriteDone(true) }

  predicate OwnRun(st: State, events: seq<Event>)
    decreases events
  {
    events == [] || (Own(events[0]) && Enabled(st, events[0]) && OwnRun(Next(st, events[0]), events[1..]))
  }

  function Work(st: State): (r: nat) { 2 * |st.posts| + |st.queue| }

  /**
   Left to itself, a session whose writes succeed stops after a bounded number of steps, whatever their
   order, and then every accepted message has been written.
   */
  lemma {:induction false} EverythingIsWritten(st: State, events: seq<Event>)
    requires Inv(st) && !st.broken && OwnRun(st, events)
    ensures |events| <= Work(st)
    ensures var end := Run(st, events);
            if end.posts == [] && end.inFlight == [] then end.written == st.accepted
            else exists e :: Own(e) && Enabled(end, e)
    decreases events
  {
    if events == [] {
      if st.posts != [] {
        assert Own(RunPost) && Enabled(st, RunPost);
      } else if st.inFlight != [] {
        assert Own(WriteDone(true)) && Enabled(st, WriteDone(true));
      }
    } else {
      OwnStep(st, events[0]);
      NextKeeps(st, events[0]);
      hide Next, Work, Inv;
      EverythingIsWritten(Next(st, events[0]), events[1..]);
    }
  }

  lemma OwnStep(st: State, e: Event)
    requires Inv(st) && !st.broken && Own(e) && Enabled(st, e)
    ensures var next := Next(st, e); Work(next) < Work(st) && !next.broken && next.accepted == st.accepted
  {
  }

  // ----- What is sent is written -----

  /** A session breaks exactly by a failed write. */
  lemma BreaksExactly(st: State, e: Event)
    requires Inv(st)
    ensures Next(st, e).broken <==> st.broken || (e == WriteDone(false) && st.queue != [])
  {
  }

  /** A message sent, put on the strand and written. */
  function Deliveries(texts: seq<string>): (r: seq<Event>) {
    if texts == [] then [] else [Send(texts[0]), RunPost, WriteDone(true)] + Deliveries(texts[1..])
  }

  lemma OneDelivery(st: State, text: string)
    requires Inv(st) && !st.broken && st.posts == [] && st.queue == []
    ensures Next(Next(Next(st, Send(text)), RunPost), WriteDone(true))
         == st.(accepted := st.accepted + [text], written := st.written + [text])
  {
    var started := Next(Next(st, Send(text)), RunPost);
    assert started.posts == [] && started.queue == [text] && started.inFlight == [text];
  }

  lemma RunThree(st: State, a: Event, b: Event, c: Event, rest: seq<Event>)
    ensures Run(st, [a, b, c] + rest) == Run(Next(Next(Next(st, a), b), c), rest)
  {
    hide Next;
    var events := [a, b, c] + rest;
    var two, one := [b, c] + rest, [c] + rest;
    assert events[0] == a && events[1..] == two && two[0] == b && two[1..] == one && one[0] == c && one[1..] == rest;
    assert Run(st, events) == Run(Next(st, a), two);
    assert Run(Next(st, a), two) == Run(Next(Next(st, a), b), one);
  }

  /** A session that is idle writes what is sent, in order, and is idle again. */
  lemma {:induction false} SentIsWritten(st: State, texts: seq<string>)
    requires Inv(st) && !st.broken && st.posts == [] && st.queue == []
    ensures Run(st, Deliveries(texts)) == st.(accepted := st.accepted + texts, written := st.written + texts)
    ensures Inv(Opened()) && !Opened().broken && Opened().posts == [] == Opened().queue == Opened().written
    decreases texts
  {
    if texts == [] {
      assert st.accepted + texts == st.accepted && st.written + texts == st.written;
    } else {
      OneDelivery(st, texts[0]);
      RunThree(st, Send(texts[0]), RunPost, WriteDone(true), Deliveries(texts[1..]));
      hide Next, Run;
      var next := st.(accepted := st.accepted + [texts[0]], written := st.written + [texts[0]]);
      assert next.accepted == next.written + next.queue + next.posts;
      SentIsWritten(next, texts[1..]);
      assert st.accepted + [texts[0]] + texts[1..] == st.accepted + texts;
      assert st.written + [texts[0]] + texts[1..] == st.written + texts;
    }
  }

  // ----- Authentication -----

  /**
   A message as parsed. `granted` is what the node-auth callback answers: success, failure, or an exception;
   `throws` is whether what is called then, the message handler or the post-auth callback, throws.
   */
  datatype Incoming =
    | Unparsable
    | Untyped
    | Auth(nodeId: string, granted: Answer, throws: bool)
    | Typed(kind: string, body: string, throws: bool)

  datatype Answer = Success | Failure(text: string) | Throws

  datatype Login = Login(authenticated: bool, nodeId: string)

  /** What a message makes the session do: a reply, the post-auth callback, or the message handler. */
  datatype Action = Reply(text: string) | PostAuth(nodeId: string) | Dispatch(nodeId: string, m: Incoming)

  function Complaint(throws: bool): (r: seq<Action>) { if throws then [Reply("Invalid message format")] else [] }

  function OnMessage(l: Login, m: Incoming): (r: (Login, seq<Action>)) {
    if m.Unparsable? then (l, [Reply("Invalid message format")])
    else if m.Untyped? then (l, [Reply("Missing 'type' field")])
    else if l.authenticated then (l, [Dispatch(l.nodeId, m)] + Complaint(m.throws))
    else if m.Typed? then (l, [Reply("Authentication required")])
    else if m.nodeId == "" then (l, [Reply("node_id is required")])
    else match m.granted
      case Throws => (l, [Reply("Invalid message format")])
      case Failure(text) => (l, [Reply(text)])
      case Success => (Login(true, m.nodeId), [Reply("auth_ok"), PostAuth(m.nodeId)] + Complaint(m.throws))
  }

  function Talk(l: Login, ms: seq<Incoming>): (r: (Login, seq<Action>))
    decreases ms
  {
    if ms == [] then (l, [])
    else
      var (l1, a1) := OnMessage(l, ms[0]);
      var (l2, a2) := Talk(l1, ms[1..]);
      (l2, a1 + a2)
  }

  predicate Grants(m: Incoming) { m.Auth? && m.nodeId != "" && m.granted.Success? }

  /**
   A session takes the identity of its first granted auth and never another: it logs in exactly once,
   hands over exactly the well-formed messages after that one, in order, all under that node id.
   */
  lemma {:induction false} OneIdentity(ms: seq<Incoming>, k: nat)
    requires k < |ms| && Grants(ms[k]) && forall i :: 0 <= i < k ==> !Grants(ms[i])
    ensures var (l, actions) := Talk(Login(false, ""), ms);
            && l == Login(true, ms[k].nodeId)
            && Handed(actions) == [PostAuth(ms[k].nodeId)] + Dispatches(ms[k].nodeId, ms[k + 1..])
    decreases k
  {
    var (l1, a1) := OnMessage(Login(false, ""), ms[0]);
    var (l2, a2) := Talk(l1, ms[1..]);
    HandedAppend(a1, a2);
    if k == 0 {
      LoggedIn(ms[0].nodeId, ms[1..]);
      GrantedActions(ms[0].nodeId, ms[0].throws);
    } else {
      OneIdentity(ms[1..], k - 1);
      assert |a1| == 1 && a1[1..] == [] && Handed(a1[1..]) == [];
      assert ms[1..][k..] == ms[k + 1..];
    }
  }

  /** How a message before the login is answered, when it does not log in. */
  ghost predicate Refused(m: Incoming, answer: string) {
    && (m.Unparsable? ==> answer == "Invalid message format") && (m.Untyped? ==> answer == "Missing 'type' field")
    && (m.Typed? ==> answer == "Authentication required")
    && (m.Auth? && m.nodeId == "" ==> answer == "node_id is required")
    && (m.Auth? && m.nodeId != "" && m.granted.Throws? ==> answer == "Invalid message format")
    && (m.Auth? && m.nodeId != "" && m.granted.Failure? ==> answer == m.granted.text)
  }

  /**
   Until an auth is granted each message gets one answer, the reason it was refused for, and nothing is handed over.
   */
  lemma {:induction false} BeforeLogin(ms: seq<Incoming>)
    requires forall m :: m in ms ==> !Grants(m)
    ensures var (l, actions) := Talk(Login(false, ""), ms);
            && l == Login(false, "") && Handed(actions) == [] && |Replies(actions)| == |ms|
            && forall i :: 0 <= i < |ms| ==> Refused(ms[i], Replies(actions)[i])
    decreases ms
  {
    if ms != [] {
      var (l1, a1) := OnMessage(Login(false, ""), ms[0]);
      var (l2, a2) := Talk(Login(false, ""), ms[1..]);
      BeforeLogin(ms[1..]);
      assert ms[0] in ms && !Grants(ms[0]);
      RefusedAlone(ms[0]);
      HandedAppend(a1, a2);
      RepliesAppend(a1, a2);
    }
  }

  /** The complaints about messages after the login. */
  function Complaints(ms: seq<Incoming>): (r: seq<string>) {
    if ms == [] then []
    else
      (if ms[0].Unparsable? then ["Invalid message format"] else if ms[0].Untyped? then ["Missing 'type' field"]
       else if ms[0].throws then ["Invalid message format"] else [])
      + Complaints(ms[1..])
  }

  /**
   All answers of a session that logs in: the refusals, the one acceptance, and then only complaints about messages that
   cannot be read or whose handler throws.
   */
  lemma {:induction false} LoginAnswers(ms: seq<Incoming>, k: nat)
    requires k < |ms| && Grants(ms[k]) && forall i :: 0 <= i < k ==> !Grants(ms[i])
    ensures var replies := Replies(Talk(Login(false, ""), ms).1);
            && |replies| > k && replies[k] == "auth_ok" && (forall i :: 0 <= i < k ==> Refused(ms[i], replies[i]))
            && replies[k + 1..] == (if ms[k].throws then ["Invalid message format"] else []) + Complaints(ms[k + 1..])
    decreases k
  {
    if k == 0 {
      LoginFirst(ms);
    } else {
      assert !Grants(ms[0]);
      RefusedFirst(ms);
      LoginAnswers(ms[1..], k - 1);
      hide Refused, Replies, Talk, Grants, Complaints;
      assert ms[1..][k..] == ms[k + 1..];
      var rest := Replies(Talk(Login(false, ""), ms[1..]).1);
      var replies := Replies(Talk(Login(false, ""), ms).1);
      forall i | 0 <= i < k
        ensures Refused(ms[i], replies[i])
      {
        if i > 0 {
          assert ms[1..][i - 1] == ms[i] && replies[i] == rest[i - 1];
        }
      }
      assert replies[k + 1..] == rest[k..];
    }
  }

  lemma RefusedFirst(ms: seq<Incoming>)
    requires ms != [] && !Grants(ms[0])
    ensures var replies := Replies(Talk(Login(false, ""), ms).1);
            && |replies| > 0 && Refused(ms[0], replies[0])
            && replies[1..] == Replies(Talk(Login(false, ""), ms[1..]).1)
  {
    RefusedAlone(ms[0]);
    hide Refused, Replies, OnMessage;
    RepliesAppend(OnMessage(Login(false, ""), ms[0]).1, Talk(Login(false, ""), ms[1..]).1);
  }

  lemma LoginFirst(ms: seq<Incoming>)
    requires ms != [] && Grants(ms[0])
    ensures var replies := Replies(Talk(Login(false, ""), ms).1);
            && |replies| > 0 && replies[0] == "auth_ok"
            && replies[1..] == (if ms[0].throws then ["Invalid message format"] else []) + Complaints(ms[1..])
  {
    assert OnMessage(Login(false, ""), ms[0])
        == (Login(true, ms[0].nodeId), [Reply("auth_ok"), PostAuth(ms[0].nodeId)] + Complaint(ms[0].throws));
    GrantedActions(ms[0].nodeId, ms[0].throws);
    LoggedInAnswers(ms[0].nodeId, ms[1..]);
    hide Replies, OnMessage, Complaint, Complaints;
    RepliesAppend(OnMessage(Login(false, ""), ms[0]).1, Talk(Login(true, ms[0].nodeId), ms[1..]).1);
  }

  lemma {:induction false} LoggedInAnswers(nodeId: string, ms: seq<Incoming>)
    ensures Replies(Talk(Login(true, nodeId), ms).1) == Complaints(ms)
    decreases ms
  {
    if ms != [] {
      LoggedInAnswers(nodeId, ms[1..]);
      RepliesAppend(OnMessage(Login(true, nodeId), ms[0]).1, Talk(Login(true, nodeId), ms[1..]).1);
      ActionsAre(nodeId, ms[0]);
    }
  }

  lemma RefusedAlone(m: Incoming)
    requires !Grants(m)
    ensures var (l, actions) := OnMessage(Login(false, ""), m);
            && l == Login(false, "") && Handed(actions) == []
            && |Replies(actions)| == 1 && Refused(m, Replies(actions)[0])
  {
    var actions := OnMessage(Login(false, ""), m).1;
    assert |actions| == 1 && actions[1..] == [];
    assert Handed(actions[1..]) == [] && Replies(actions[1..]) == [];
  }

  lemma {:induction false} RepliesAppend(a: seq<Action>, b: seq<Action>)
    ensures Replies(a + b) == Replies(a) + Replies(b)
  {
    if a == [] {
      assert a + b == b;
    } else {
      RepliesAppend(a[1..], b);
      assert (a + b)[1..] == a[1..] + b && (a + b)[0] == a[0];
    }
  }

  /** The actions that reach the server's handlers. */
  function Handed(actions: seq<Action>): (r: seq<Action>) {
    if actions == [] then [] else Part(actions[0]) + Handed(actions[1..])
  }

  function Part(a: Action): (r: seq<Action>) { if a.Reply? then [] else [a] }

  function Dispatches(nodeId: string, ms: seq<Incoming>): (r: seq<Action>) {
    if ms == [] then []
    else (if ms[0].Unparsable? || ms[0].Untyped? then [] else [Dispatch(nodeId, ms[0])]) + Dispatches(nodeId, ms[1..])
  }

  lemma {:induction false} HandedAppend(a: seq<Action>, b: seq<Action>)
    ensures Handed(a + b) == Handed(a) + Handed(b)
  {
    hide Part;
    if a == [] {
      assert a + b == b;
    } else {
      HandedAppend(a[1..], b);
      assert (a + b)[1..] == a[1..] + b && (a + b)[0] == a[0];
      assert Part(a[0]) + (Handed(a[1..]) + Handed(b)) == (Part(a[0]) + Handed(a[1..])) + Handed(b);
    }
  }

  lemma ActionsAre(nodeId: string, m: Incoming)
    ensures var actions := OnMessage(Login(true, nodeId), m).1;
            && Handed(actions) == (if m.Unparsable? || m.Untyped? then [] else [Dispatch(nodeId, m)])
            && Replies(actions)
               == (if m.Unparsable? then ["Invalid message format"] else if m.Untyped? then ["Missing 'type' field"]
                   else if m.throws then ["Invalid message format"] else [])
  {
    var actions := OnMessage(Login(true, nodeId), m).1;
    var none: seq<Action> := [];
    assert Handed(none) == [] && Replies(none) == [];
    if |actions| == 1 {
      assert actions[1..] == none;
    } else {
      assert actions[1..] == [Reply("Invalid message format")] && actions[1..][1..] == none;
      assert Handed(actions[1..]) == [] && Replies(actions[1..]) == ["Invalid message format"];
    }
  }

  lemma {:induction false} LoggedIn(nodeId: string, ms: seq<Incoming>)
    ensures var (l, actions) := Talk(Login(true, nodeId), ms);
            l == Login(true, nodeId) && Handed(actions) == Dispatches(nodeId, ms)
    decreases ms
  {
    if ms != [] {
      LoggedIn(nodeId, ms[1..]);
      var a1 := OnMessage(Login(true, nodeId), ms[0]).1;
      var a2 := Talk(Login(true, nodeId), ms[1..]).1;
      HandedAppend(a1, a2);
      ActionsAre(nodeId, ms[0]);
    }
  }

  // ----- Disconnect reports -----

  /** How a session learns that its connection is over: a failed read, a failed write, or silence for the timeout. */
  datatype Path = ReadPath | WritePath | SilencePath

  /**
   Whether the disconnect handler is called. A session told that it was replaced keeps quiet, except about a failed
   write.
   */
  predicate Reports(path: Path, aborted: bool, stale: bool, nodeId: string) {
    nodeId != "" && match path case ReadPath => !aborted && !stale case WritePath => !aborted case SilencePath => !stale
  }

  // ----- The object -----

  class WsSession {
    var posts: seq<string>
    var writeQueue: seq<string>
    var writing: bool
    var inFlight: seq<string>
    var broken: bool
    var accepted: seq<string>
    var written: seq<string>
    var authenticated: bool
    var nodeId: string
    var stale: bool
    /** Calls of the disconnect handler, and what else reached the server's handlers. */
    var disconnects: seq<string>
    var handed: seq<Action>

    function View(): (r: State)
      reads this
    {
      State(posts, writeQueue, writing, inFlight, broken, accepted, written)
    }

    constructor ()
      ensures View() == Opened() && !authenticated && nodeId == "" && !stale && disconnects == [] && handed == []
    {
      posts, writeQueue, inFlight, accepted, written := [], [], [], [], [];
      writing, broken, authenticated, stale := false, false, false, false;
      nodeId, disconnects, handed := "", [], [];
    }

    method SendJson(text: string)
      modifies this`posts, this`accepted
      ensures View() == Next(old(View()), Send(text))
    {
      posts := posts + [text];
      accepted := accepted + [text];
    }

    /** The strand handler posted by SendJson. */
    method RunPosted()
      requires posts != []
      modifies this`posts, this`writeQueue, this`writing, this`inFlight
      ensures View() == Next(old(View()), RunPost)
    {
      hide StartWrite;
      writeQueue := writeQueue + [posts[0]];
      posts := posts[1..];
      if !writing {
        DoWrite();
      }
    }

    method DoWrite()
      modifies this`writing, this`inFlight
      ensures View() == StartWrite(old(View()))
    {
      if writeQueue == [] {
        writing := false;
        return;
      }
      writing := true;
      inFlight := inFlight + [writeQueue[0]];
    }

    /** A failed write is reported even on a session that has been replaced. */
    method OnWritten(ok: bool, aborted: bool)
      requires inFlight != [] && writeQueue != []
      modifies this`writeQueue, this`writing, this`inFlight, this`broken, this`written, this`disconnects
      ensures View() == Next(old(View()), WriteDone(ok))
      ensures disconnects == old(disconnects) + if !ok && Reports(WritePath, aborted, stale, nodeId) then [nodeId]
              else []
    {
      hide StartWrite;
      var text := inFlight[0];
      inFlight := inFlight[1..];
      if !ok {
        broken := true;
        if !aborted && nodeId != "" {
          disconnects := disconnects + [nodeId];
        }
        return;
      }
      written := written + [text];
      writeQueue := writeQueue[1..];
      DoWrite();
    }

    /** A failed read is reported unless the session has been replaced. */
    method OnReadFailed(aborted: bool)
      modifies this`disconnects
      ensures disconnects == old(disconnects) + if Reports(ReadPath, aborted, stale, nodeId) then [nodeId] else []
    {
      if !aborted && !stale && nodeId != "" {
        disconnects := disconnects + [nodeId];
      }
    }

    /**
     The heartbeat timer; `silent` is whether the last message is the timeout old. A session that closes stops
     checking.
     */
    method CheckHeartbeat(silent: bool) returns (closes: bool)
      modifies this`disconnects
      ensures disconnects == old(disconnects) + if silent && Reports(SilencePath, false, stale, nodeId) then [nodeId]
              else []
      ensures closes == (silent && !stale)
    {
      closes := false;
      if !stale && silent {
        if nodeId != "" {
          disconnects := disconnects + [nodeId];
        }
        closes := true;
      }
    }

    method MarkStale()
      modifies this`stale
      ensures stale
    {
      stale := true;
    }

    method HandleMessage(m: Incoming)
      modifies this`posts, this`accepted, this`authenticated, this`nodeId, this`handed
      ensures var (l, actions) := OnMessage(Login(old(authenticated), old(nodeId)), m);
              && Login(authenticated, nodeId) == l && handed == old(handed) + Handed(actions)
              && accepted == old(accepted) + Replies(actions) && posts == old(posts) + Replies(actions)
    {
      match m
      case Unparsable =>
        SendJson("Invalid message format");
      case Untyped =>
        SendJson("Missing 'type' field");
      case _ =>
        if authenticated {
          handed := handed + [Dispatch(nodeId, m)];
          if m.throws {
            SendJson("Invalid message format");
          }
          ActionsAre(nodeId, m);
        } else {
          HandleAuthMessage(m);
        }
    }

    method HandleAuthMessage(m: Incoming)
      requires !authenticated && (m.Auth? || m.Typed?)
      modifies this`posts, this`accepted, this`authenticated, this`nodeId, this`handed
      ensures var (l, actions) := OnMessage(Login(false, old(nodeId)), m);
              && Login(authenticated, nodeId) == l && handed == old(handed) + Handed(actions)
              && accepted == old(accepted) + Replies(actions) && posts == old(posts) + Replies(actions)
    {
      if m.Typed? {
        SendJson("Authentication required");
        return;
      }
      if m.nodeId == "" {
        SendJson("node_id is required");
        return;
      }
      match m.granted
      case Throws => SendJson("Invalid message format");
      case Failure(text) => SendJson(text);
      case Success =>
        authenticated := true;
        nodeId := m.nodeId;
        SendJson("auth_ok");
        handed := handed + [PostAuth(nodeId)];
        if m.throws {
          SendJson("Invalid message format");
        }
        GrantedActions(nodeId, m.throws);
    }
  }

  lemma GrantedActions(nodeId: string, throws: bool)
    ensures var actions := [Reply("auth_ok"), PostAuth(nodeId)] + Complaint(throws);
            && Handed(actions) == [PostAuth(nodeId)]
            && Replies(actions) == ["auth_ok"] + (if throws then ["Invalid message format"] else [])
  {
    var actions := [Reply("auth_ok"), PostAuth(nodeId)] + Complaint(throws);
    var two, one := actions[1..], actions[2..];
    var none: seq<Action> := [];
    assert two[0] == PostAuth(nodeId) && two[1..] == one == Complaint(throws);
    assert Handed(none) == [] && Replies(none) == [];
    if throws {
      assert one[1..] == none;
    }
    assert Handed(one) == [] && Replies(one) == if throws then ["Invalid message format"] else [];
    assert Handed(two) == [PostAuth(nodeId)] && Replies(two) == Replies(one);
  }

  function Replies(actions: seq<Action>): (r: seq<string>) {
    if actions == [] then [] else (if actions[0].Reply? then [actions[0].text] else []) + Replies(actions[1..])
  }
}
