/** The server-sent event stream over a job's log: the handshake on
    Last-Event-ID and the polling loop. One poll is one atomic read. */
module Sse {
  import opened Options
  import opened Integers
  import opened JobRecords
  import opened JobSpec
  import opened JobRuns
  import opened JobSafety
  import JobFencing

  /** What one turn of the loop reads. The log numbers its events 1..n; its
      first `pruned` events are no longer retained. */
  datatype Poll = Poll(disconnected: bool, now: Time, log: seq<Event>, pruned: nat, active: bool)

  datatype Frame = Data(event: Event) | Ping | StreamEnd

  ghost predicate LogShape(p: Poll) {
    p.pruned <= |p.log| && forall i :: 0 <= i < |p.log| ==> p.log[i].num == i + 1
  }

  /** Successive polls read one log that only grows at its end, and what was
      pruned stays pruned. */
  ghost predicate Growing(polls: seq<Poll>) {
    && (forall i :: 0 <= i < |polls| ==> LogShape(polls[i]))
    && (forall i, j :: 0 <= i <= j < |polls| ==> polls[i].log <= polls[j].log && polls[i].pruned <= polls[j].pruned)
  }

  // ---- handshake ----

  function EarliestNum(p: Poll): Option<nat>
    requires p.pruned <= |p.log|
  {
    if p.pruned < |p.log| then Some(p.log[p.pruned].num) else None
  }

  /** The stream opens unless the resume point predates the retained log. */
  predicate Accepted(cursor: Option<int>, p: Poll)
    requires p.pruned <= |p.log|
  {
    cursor.Some? && EarliestNum(p).Some? ==> cursor.value + 1 >= EarliestNum(p).value
  }

  /** Against a retained log, a resume point is accepted exactly when it is not
      negative and skips nothing: every event above it is still there. */
  lemma AcceptedSkipsNothing(cursor: int, p: Poll)
    requires LogShape(p) && p.pruned < |p.log|
    ensures Accepted(Some(cursor), p) <==>
      cursor >= 0 && forall i :: 0 <= i < |p.log| && p.log[i].num > cursor ==> i >= p.pruned
  {
    if p.pruned > 0 { assert p.log[p.pruned - 1].num == p.pruned; }
  }

  // ---- one poll ----

  /** Rising retained events numbered above `after`, at most `limit` of them. */
  method EventsAfter(p: Poll, after: int, limit: nat) returns (batch: seq<Event>)
    requires LogShape(p)
    ensures batch == Batch(p, after, limit)
  {
    batch := [];
    var i := p.pruned;
    while i < |p.log| && |batch| < limit
      invariant p.pruned <= i <= |p.log| && |batch| <= limit
      invariant batch == if i <= From(p, after) then [] else p.log[From(p, after)..i]
    {
      if p.log[i].num > after {
        batch := batch + [p.log[i]];
      }
      i := i + 1;
    }
  }

  /** Where the unseen retained events start. */
  function From(p: Poll, after: int): int {
    Max(Max(after, 0), p.pruned)
  }

  function Batch(p: Poll, after: int, limit: nat): seq<Event> {
    if From(p, after) >= |p.log| then []
    else p.log[From(p, after)..Min(From(p, after) + limit, |p.log|)]
  }

  // ---- the loop ----

  datatype Reader = Reader(current: int, lastBeat: Time, frames: seq<Frame>, closed: bool)

  function Frames(batch: seq<Event>): seq<Frame> {
    seq(|batch|, i requires 0 <= i < |batch| => Data(batch[i]))
  }

  function Turn(r: Reader, p: Poll, limit: nat, heartbeat: real): Reader {
    if p.disconnected then r.(closed := true)
    else
      var batch := Batch(p, r.current, limit);
      var current := if batch == [] then r.current else batch[|batch| - 1].num;
      var sent := r.frames + Frames(batch);
      if !p.active && batch == [] then Reader(current, r.lastBeat, sent + [StreamEnd], true)
      else if p.now - r.lastBeat >= heartbeat then Reader(current, p.now, sent + [Ping], false)
      else Reader(current, r.lastBeat, sent, false)
  }

  function Read(r: Reader, polls: seq<Poll>, limit: nat, heartbeat: real): Reader
    decreases |polls|
  {
    if polls == [] || r.closed then r else Read(Turn(r, polls[0], limit, heartbeat), polls[1..], limit, heartbeat)
  }

  function Opened(cursor: Option<int>, start: Time): Reader {
    Reader(if cursor.Some? then cursor.value else 0, start, [], false)
  }

  /** The generator, run over the polls it gets to make. */
  method Generate(cursor: Option<int>, start: Time, polls: seq<Poll>, limit: nat, heartbeat: real)
    returns (frames: seq<Frame>)
    requires forall i :: 0 <= i < |polls| ==> LogShape(polls[i])
    ensures frames == Read(Opened(cursor, start), polls, limit, heartbeat).frames
  {
    var current := if cursor.Some? then cursor.value else 0;
    var lastBeat := start;
    frames := [];
    assert Opened(cursor, start) == Reader(current, lastBeat, frames, false) && polls[0..] == polls;
    hide Turn, Batch, Read, Opened;
    var i := 0;
    while i < |polls|
      invariant 0 <= i <= |polls|
      invariant Read(Opened(cursor, start), polls, limit, heartbeat)
             == Read(Reader(current, lastBeat, frames, false), polls[i..], limit, heartbeat)
    {
      var p := polls[i];
      ghost var before := Reader(current, lastBeat, frames, false);
      ReadTurns(before, polls, i, limit, heartbeat);
      TurnTakes(before, p, limit, heartbeat);
      if p.disconnected {
        ReadStops(Turn(before, p, limit, heartbeat), polls[i + 1..], limit, heartbeat);
        return;
      }
      var batch := EventsAfter(p, current, limit);
      ghost var sent := frames;
      for k := 0 to |batch|
        invariant frames == sent + Frames(batch[..k])
        invariant current == if k == 0 then before.current else batch[k - 1].num
      {
        OneMoreFrame(batch, k);
        assert sent + (Frames(batch[..k]) + [Data(batch[k])]) == (sent + Frames(batch[..k])) + [Data(batch[k])];
        frames := frames + [Data(batch[k])];
        current := batch[k].num;
      }
      assert batch[..|batch|] == batch;
      if !p.active && batch == [] {
        frames := frames + [StreamEnd];
        ReadStops(Turn(before, p, limit, heartbeat), polls[i + 1..], limit, heartbeat);
        return;
      }
      if p.now - lastBeat >= heartbeat {
        frames := frames + [Ping];
        lastBeat := p.now;
      }
      i := i + 1;
    }
    ReadStops(Reader(current, lastBeat, frames, false), [], limit, heartbeat);
  }

  lemma OneMoreFrame(batch: seq<Event>, k: nat)
    requires k < |batch|
    ensures Frames(batch[..k + 1]) == Frames(batch[..k]) + [Data(batch[k])]
  {
  }

  lemma ReadTurns(r: Reader, polls: seq<Poll>, i: nat, limit: nat, heartbeat: real)
    requires i < |polls| && !r.closed
    ensures Read(r, polls[i..], limit, heartbeat) == Read(Turn(r, polls[i], limit, heartbeat), polls[i + 1..], limit, heartbeat)
  {
    hide Turn;
    assert polls[i..][1..] == polls[i + 1..];
  }

  /** The turn, part by part. */
  lemma TurnTakes(r: Reader, p: Poll, limit: nat, heartbeat: real)
    ensures p.disconnected ==> Turn(r, p, limit, heartbeat) == r.(closed := true)
    ensures !p.disconnected ==>
            var batch := Batch(p, r.current, limit);
            var current := if batch == [] then r.current else batch[|batch| - 1].num;
            var sent := r.frames + Frames(batch);
            Turn(r, p, limit, heartbeat) ==
              if !p.active && batch == [] then Reader(current, r.lastBeat, sent + [StreamEnd], true)
              else if p.now - r.lastBeat >= heartbeat then Reader(current, p.now, sent + [Ping], false)
              else Reader(current, r.lastBeat, sent, false)
  {
  }

  lemma ReadStops(r: Reader, polls: seq<Poll>, limit: nat, heartbeat: real)
    requires r.closed || polls == []
    ensures Read(r, polls, limit, heartbeat) == r
  {
  }

  // ---- what a client receives ----

  function DataOf(frames: seq<Frame>): seq<Event> {
    if frames == [] then []
    else DataOf(frames[..|frames| - 1]) + (if frames[|frames| - 1].Data? then [frames[|frames| - 1].event] else [])
  }

  lemma DataOfSent(sent: seq<Frame>, batch: seq<Event>)
    ensures DataOf(sent + Frames(batch)) == DataOf(sent) + batch
    decreases |batch|
  {
    if batch == [] {
      assert sent + Frames(batch) == sent;
    } else {
      var init := batch[..|batch| - 1];
      DataOfSent(sent, init);
      var all := sent + Frames(batch);
      assert all[..|all| - 1] == sent + Frames(init);
      assert batch == init + [batch[|batch| - 1]];
    }
  }

  lemma DataOfMark(sent: seq<Frame>, mark: Frame)
    requires !mark.Data?
    ensures DataOf(sent + [mark]) == DataOf(sent)
  {
    assert (sent + [mark])[..|sent|] == sent;
  }

  lemma TurnData(r: Reader, p: Poll, limit: nat, heartbeat: real)
    requires !p.disconnected
    ensures DataOf(Turn(r, p, limit, heartbeat).frames) == DataOf(r.frames) + Batch(p, r.current, limit)
  {
    var batch := Batch(p, r.current, limit);
    var sent := r.frames + Frames(batch);
    DataOfSent(r.frames, batch);
    DataOfMark(sent, StreamEnd);
    DataOfMark(sent, Ping);
  }

  /** A connection: the cursor it resumed from and what was pruned by its first
      poll. Delivery starts after both. */
  datatype Origin = Origin(cursor: int, pruned: nat) {
    function Start(): nat { Max(Max(cursor, 0), pruned) }
  }

  /** The position up to which the log has been dealt with. */
  function At(r: Reader, o: Origin): nat {
    if r.current > o.Start() then r.current else o.Start()
  }

  /** So far the client holds exactly the events after the start, in order,
      without gap or repeat. */
  ghost predicate Delivered(r: Reader, o: Origin, log: seq<Event>) {
    (r.current == o.cursor && DataOf(r.frames) == [])
    || (o.Start() < r.current <= |log| && DataOf(r.frames) == log[o.Start()..r.current])
  }

  /** One poll keeps the delivery exact if and only if retention has not
      overtaken the reader, or there is nothing to send. */
  lemma TurnDeliversExactly(r: Reader, o: Origin, log: seq<Event>, p: Poll, limit: nat, heartbeat: real)
    requires LogShape(p) && log <= p.log && o.pruned <= p.pruned && !p.disconnected
    requires Delivered(r, o, log)
    ensures Delivered(Turn(r, p, limit, heartbeat), o, p.log)
      <==> p.pruned <= At(r, o) || Batch(p, r.current, limit) == []
  {
    hide Turn, Batch, From, DataOf;
    var batch := Batch(p, r.current, limit);
    var r' := Turn(r, p, limit, heartbeat);
    TurnData(r, p, limit, heartbeat);
    TurnTakes(r, p, limit, heartbeat);
    BatchIsSlice(p, r.current, limit);
    assert r'.current == (if batch == [] then r.current else batch[|batch| - 1].num);
    if batch != [] {
      var from := From(p, r.current);
      if p.pruned <= At(r, o) {
        StillExact(r, o, log, p, from, from + |batch|);
      } else {
        FellBehind(r, r', o, log, p, batch, from);
      }
    } else {
      SameDelivered(r, o, log, p.log);
    }
  }

  /** A batch is the stretch of the log from the first unseen retained event. */
  lemma BatchIsSlice(p: Poll, after: int, limit: nat)
    requires LogShape(p)
    ensures var batch, from := Batch(p, after, limit), From(p, after);
            && from == Max(Max(after, 0), p.pruned)
            && (batch != [] ==> 0 <= from && from + |batch| <= |p.log| && batch == p.log[from..from + |batch|]
                                && batch[|batch| - 1].num == from + |batch|)
  {
  }

  lemma StillExact(r: Reader, o: Origin, log: seq<Event>, p: Poll, from: nat, end: nat)
    requires log <= p.log && o.pruned <= p.pruned <= At(r, o) && Delivered(r, o, log)
    requires from == Max(Max(r.current, 0), p.pruned) && from < end <= |p.log|
    ensures from == At(r, o) && DataOf(r.frames) + p.log[from..end] == p.log[o.Start()..end]
  {
    assert from == At(r, o);
    var data, start := DataOf(r.frames), o.Start();
    assert data == p.log[start..from] by {
      if r.current > start { assert log[start..from] == p.log[start..from]; }
    }
    hide DataOf;
    assert p.log[start..from] + p.log[from..end] == p.log[start..end];
  }

  lemma FellBehind(r: Reader, r': Reader, o: Origin, log: seq<Event>, p: Poll, batch: seq<Event>, from: nat)
    requires log <= p.log && Delivered(r, o, log) && batch != []
    requires p.pruned > At(r, o) && from == Max(Max(r.current, 0), p.pruned)
    requires r'.current == from + |batch| && DataOf(r'.frames) == DataOf(r.frames) + batch
    ensures !Delivered(r', o, p.log)
  {
    hide DataOf;
    var start := o.Start();
    assert |DataOf(r.frames)| == At(r, o) - start;
    assert r'.current - start > |DataOf(r'.frames)|;
  }

  lemma SameDelivered(r: Reader, o: Origin, log: seq<Event>, more: seq<Event>)
    requires log <= more && Delivered(r, o, log)
    ensures Delivered(r, o, more)
  {
    hide DataOf;
    if r.current > o.Start() { assert log[o.Start()..r.current] == more[o.Start()..r.current]; }
  }

  /** An open turn sends the unseen retained events, as many as the limit lets
      through, and it announces the end exactly on a finished job with none. */
  lemma TurnAdvances(r: Reader, p: Poll, limit: nat, heartbeat: real)
    requires LogShape(p) && !p.disconnected
    ensures var r', unseen := Turn(r, p, limit, heartbeat), Max(0, |p.log| - Max(Max(r.current, 0), p.pruned));
      && |DataOf(r'.frames)| == |DataOf(r.frames)| + Min(limit, unseen)
      && (r'.closed <==> !p.active && Min(limit, unseen) == 0)
      && (r'.closed ==> r'.frames == r.frames + [StreamEnd])
  {
    hide DataOf;
    TurnData(r, p, limit, heartbeat);
    assert r.frames + Frames([]) == r.frames;
  }

  // ---- the heartbeat ----

  function Pings(frames: seq<Frame>): nat {
    if frames == [] then 0
    else Pings(frames[..|frames| - 1]) + if frames[|frames| - 1].Ping? then 1 else 0
  }

  lemma {:induction false} PingsOfSent(sent: seq<Frame>, batch: seq<Event>)
    ensures Pings(sent + Frames(batch)) == Pings(sent)
    decreases |batch|
  {
    if batch == [] {
      assert sent + Frames(batch) == sent;
    } else {
      var init := batch[..|batch| - 1];
      PingsOfSent(sent, init);
      var all := sent + Frames(batch);
      assert all[..|all| - 1] == sent + Frames(init);
    }
  }

  lemma TurnBeats(r: Reader, p: Poll, limit: nat, heartbeat: real)
    requires heartbeat > 0.0
    ensures var r' := Turn(r, p, limit, heartbeat);
      && (!r'.closed ==> p.now - r'.lastBeat < heartbeat)
      && (r'.lastBeat == r.lastBeat || r'.lastBeat == p.now >= r.lastBeat + heartbeat)
      && Pings(r'.frames) == Pings(r.frames) + if r'.lastBeat == r.lastBeat then 0 else 1
  {
    hide Batch;
    TurnTakes(r, p, limit, heartbeat);
    var sent := r.frames + Frames(Batch(p, r.current, limit));
    PingsOfSent(r.frames, Batch(p, r.current, limit));
    assert (sent + [StreamEnd])[..|sent|] == sent && (sent + [Ping])[..|sent|] == sent;
  }

  /** Over any number of polls: while the connection is open, the last ping, or
      the opening, is less than a heartbeat before the last poll; and pings are
      never closer to each other than a heartbeat. */
  lemma {:induction false} PingsKeepTime(r: Reader, polls: seq<Poll>, limit: nat, heartbeat: real)
    requires heartbeat > 0.0 && !r.closed
    ensures var end := Read(r, polls, limit, heartbeat);
      && (!end.closed && polls != [] ==> polls[|polls| - 1].now - end.lastBeat < heartbeat)
      && Pings(end.frames) >= Pings(r.frames)
      && (Pings(end.frames) - Pings(r.frames)) as real * heartbeat <= end.lastBeat - r.lastBeat
      && (Pings(end.frames) == Pings(r.frames) ==> end.lastBeat == r.lastBeat)
    decreases |polls|
  {
    hide Turn, Pings;
    if polls != [] {
      TurnBeats(r, polls[0], limit, heartbeat);
      var next := Turn(r, polls[0], limit, heartbeat);
      if !next.closed {
        PingsKeepTime(next, polls[1..], limit, heartbeat);
        OneMoreBeat(Pings(Read(next, polls[1..], limit, heartbeat).frames), Pings(next.frames), Pings(r.frames), heartbeat);
      }
    }
  }

  lemma OneMoreBeat(end: nat, next: nat, first: nat, heartbeat: real)
    requires first <= next <= first + 1 && next <= end
    ensures (end - first) as real * heartbeat == (end - next) as real * heartbeat + (next - first) as real * heartbeat
  {}

  // ---- whole connections ----

  /** No end of stream announced yet. */
  predicate Open(frames: seq<Frame>) {
    frames == [] || frames[|frames| - 1] != StreamEnd
  }

  /** This poll does the reader no harm: retention has not overtaken it, or there
      is nothing to send and the job is still active, so nothing is announced. */
  predicate InTime(r: Reader, o: Origin, p: Poll, limit: nat)
    requires p.pruned <= |p.log|
  {
    p.disconnected || p.pruned <= At(r, o) || (p.active && Batch(p, r.current, limit) == [])
  }

  ghost predicate AllInTime(r: Reader, o: Origin, polls: seq<Poll>, limit: nat, heartbeat: real)
    requires Growing(polls)
    decreases |polls|
  {
    polls == [] || r.closed
    || (InTime(r, o, polls[0], limit) && AllInTime(Turn(r, polls[0], limit, heartbeat), o, polls[1..], limit, heartbeat))
  }

  /** The log as the last poll that was made read it. */
  function LastRead(r: Reader, log: seq<Event>, polls: seq<Poll>, limit: nat, heartbeat: real): seq<Event>
    decreases |polls|
  {
    if polls == [] || r.closed || polls[0].disconnected then log
    else LastRead(Turn(r, polls[0], limit, heartbeat), polls[0].log, polls[1..], limit, heartbeat)
  }

  /** What the client holds is exact, and if the end of the stream was announced
      it holds the whole log after its start. */
  ghost predicate Sound(r: Reader, o: Origin, log: seq<Event>) {
    Delivered(r, o, log) && (!Open(r.frames) ==> |log| <= At(r, o))
  }

  /** Events are missing between those the client holds. */
  ghost predicate Gap(r: Reader, o: Origin) {
    DataOf(r.frames) != [] && |DataOf(r.frames)| < r.current - o.Start()
  }

  lemma TurnMarks(r: Reader, p: Poll, limit: nat, heartbeat: real)
    requires Open(r.frames) && !r.closed && !p.disconnected
    ensures var r' := Turn(r, p, limit, heartbeat);
      && (r'.closed <==> !p.active && Batch(p, r.current, limit) == [])
      && (r'.closed <==> !Open(r'.frames))
  {
    var batch := Batch(p, r.current, limit);
    hide Batch;
    if batch != [] { assert (r.frames + Frames(batch))[|r.frames| + |batch| - 1] == Data(batch[|batch| - 1]); }
  }

  lemma GapStays(r: Reader, o: Origin, p: Poll, limit: nat, heartbeat: real)
    requires LogShape(p) && Gap(r, o)
    ensures Gap(Turn(r, p, limit, heartbeat), o)
  {
    if !p.disconnected {
      TurnData(r, p, limit, heartbeat);
      BatchIsSlice(p, r.current, limit);
      hide Batch, DataOf;
    }
  }

  lemma {:induction false} GapForever(r: Reader, o: Origin, polls: seq<Poll>, limit: nat, heartbeat: real)
    requires Growing(polls) && Gap(r, o)
    ensures Gap(Read(r, polls, limit, heartbeat), o)
    decreases |polls|
  {
    if polls != [] && !r.closed {
      GapStays(r, o, polls[0], limit, heartbeat);
      GapForever(Turn(r, polls[0], limit, heartbeat), o, polls[1..], limit, heartbeat);
    }
  }

  lemma FirstGap(r: Reader, o: Origin, log: seq<Event>, p: Poll, limit: nat, heartbeat: real)
    requires LogShape(p) && log <= p.log && Delivered(r, o, log) && !p.disconnected
    requires p.pruned > At(r, o) && Batch(p, r.current, limit) != []
    ensures Gap(Turn(r, p, limit, heartbeat), o)
  {
    TurnData(r, p, limit, heartbeat);
    BatchIsSlice(p, r.current, limit);
    assert |DataOf(r.frames)| == At(r, o) - o.Start();
    hide Batch, DataOf;
  }

  lemma GapIsUnsound(r: Reader, o: Origin, log: seq<Event>)
    requires Gap(r, o)
    ensures !Delivered(r, o, log)
  {
    hide DataOf;
  }

  /** Over any number of polls the client receives the events after its start in
      rising order with no gap and no repeat, and the whole log when the end is
      announced, if and only if every poll that was made came in time. */
  lemma {:induction false} ReadDeliversExactlyWhen(r: Reader, o: Origin, log: seq<Event>, polls: seq<Poll>, limit: nat, heartbeat: real)
    requires Growing(polls) && limit > 0
    requires polls != [] ==> log <= polls[0].log && o.pruned <= polls[0].pruned
    requires Delivered(r, o, log) && !r.closed && Open(r.frames)
    ensures Sound(Read(r, polls, limit, heartbeat), o, LastRead(r, log, polls, limit, heartbeat))
       <==> AllInTime(r, o, polls, limit, heartbeat)
    decreases |polls|
  {
    if polls != [] && !polls[0].disconnected {
      var p := polls[0];
      var r' := Turn(r, p, limit, heartbeat);
      TurnDeliversExactly(r, o, log, p, limit, heartbeat);
      TurnMarks(r, p, limit, heartbeat);
      assert forall i :: 0 <= i < |polls[1..]| ==> polls[1..][i] == polls[i + 1];
      if p.pruned > At(r, o) && Batch(p, r.current, limit) != [] {
        FirstGap(r, o, log, p, limit, heartbeat);
        GapForever(r', o, polls[1..], limit, heartbeat);
        GapIsUnsound(Read(r', polls[1..], limit, heartbeat), o, LastRead(r', p.log, polls[1..], limit, heartbeat));
      } else if r'.closed {
        AnnouncedEnd(r, o, p, limit, heartbeat);
      } else {
        hide Turn, Batch, Delivered;
        ReadDeliversExactlyWhen(r', o, p.log, polls[1..], limit, heartbeat);
      }
    } else if polls != [] {
      assert Read(r, polls, limit, heartbeat) == r.(closed := true);
    }
  }

  /** The end is announced with the whole log delivered exactly when retention
      has not overtaken the reader. */
  lemma AnnouncedEnd(r: Reader, o: Origin, p: Poll, limit: nat, heartbeat: real)
    requires LogShape(p) && limit > 0 && !p.disconnected && o.pruned <= p.pruned
    requires At(r, o) == o.Start() ==> r.current <= o.Start()
    requires !p.active && Batch(p, r.current, limit) == []
    ensures At(Turn(r, p, limit, heartbeat), o) == At(r, o)
    ensures |p.log| <= At(r, o) <==> p.pruned <= At(r, o)
  {
  }

  /** The start the client is owed: everything above its Last-Event-ID, or,
      without one, everything retained at its first poll. */
  function OriginOf(cursor: Option<int>, p: Poll): Origin {
    match cursor
    case Some(c) => Origin(c, 0)
    case None => Origin(0, p.pruned)
  }

  /** A whole connection, from its opening on. */
  lemma StreamDeliversExactlyWhen(cursor: Option<int>, start: Time, polls: seq<Poll>, limit: nat, heartbeat: real)
    requires polls != [] && Growing(polls) && limit > 0
    ensures var r, o := Opened(cursor, start), OriginOf(cursor, polls[0]);
      Sound(Read(r, polls, limit, heartbeat), o, LastRead(r, [], polls, limit, heartbeat))
      <==> AllInTime(r, o, polls, limit, heartbeat)
  {
    ReadDeliversExactlyWhen(Opened(cursor, start), OriginOf(cursor, polls[0]), [], polls, limit, heartbeat);
  }

  /** The polls after the first find the reader ahead of retention. Events it
      already has may be pruned. */
  ghost predicate StaysAhead(r: Reader, o: Origin, polls: seq<Poll>, limit: nat, heartbeat: real)
    decreases |polls|
  {
    polls == [] || r.closed
    || ((polls[0].disconnected || polls[0].pruned <= At(r, o))
        && StaysAhead(Turn(r, polls[0], limit, heartbeat), o, polls[1..], limit, heartbeat))
  }

  lemma {:induction false} AheadIsInTime(r: Reader, o: Origin, polls: seq<Poll>, limit: nat, heartbeat: real)
    requires Growing(polls) && StaysAhead(r, o, polls, limit, heartbeat)
    ensures AllInTime(r, o, polls, limit, heartbeat)
    decreases |polls|
  {
    if polls != [] && !r.closed {
      AheadIsInTime(Turn(r, polls[0], limit, heartbeat), o, polls[1..], limit, heartbeat);
    }
  }

  /** Since the handshake nothing above the resume point has been pruned. */
  predicate KeptSince(cursor: Option<int>, h: Poll, p: Poll) {
    cursor.Some? ==> p.pruned <= Max(h.pruned, Max(cursor.value, 0))
  }

  /** A connection accepted against a log that retains something had nothing
      pruned above its resume point. So if nothing is until the first poll, it
      delivers exactly, for as long as it stays ahead of retention. */
  lemma AcceptedStreamDelivers(cursor: Option<int>, start: Time, h: Poll, polls: seq<Poll>, limit: nat, heartbeat: real)
    requires polls != [] && LogShape(h) && Growing(polls) && limit > 0
    requires Accepted(cursor, h) && h.pruned < |h.log| && KeptSince(cursor, h, polls[0])
    requires var r, o := Opened(cursor, start), OriginOf(cursor, polls[0]);
      StaysAhead(Turn(r, polls[0], limit, heartbeat), o, polls[1..], limit, heartbeat)
    ensures var r, o := Opened(cursor, start), OriginOf(cursor, polls[0]);
      && AllInTime(r, o, polls, limit, heartbeat)
      && Sound(Read(r, polls, limit, heartbeat), o, LastRead(r, [], polls, limit, heartbeat))
  {
    var r, o := Opened(cursor, start), OriginOf(cursor, polls[0]);
    if cursor.Some? { AcceptedSkipsNothing(cursor.value, h); }
    AheadIsInTime(Turn(r, polls[0], limit, heartbeat), o, polls[1..], limit, heartbeat);
    FirstIsAhead(cursor, start, h, polls[0]);
    hide Turn, Accepted;
    StreamDeliversExactlyWhen(cursor, start, polls, limit, heartbeat);
  }

  lemma FirstIsAhead(cursor: Option<int>, start: Time, h: Poll, p: Poll)
    requires LogShape(h) && h.pruned < |h.log| && Accepted(cursor, h) && KeptSince(cursor, h, p)
    ensures p.pruned <= At(Opened(cursor, start), OriginOf(cursor, p))
  {
  }

  /** Against a log with nothing left in it every resume point is accepted. On a
      finished job the stream is then announced complete at once, and that is
      true exactly when the resume point is at the end of the log. */
  lemma PrunedLogIsAccepted(cursor: int, start: Time, p: Poll, limit: nat, heartbeat: real)
    requires LogShape(p) && p.pruned == |p.log| && !p.disconnected && !p.active && limit > 0
    ensures Accepted(Some(cursor), p)
    ensures var r, o := Opened(Some(cursor), start), OriginOf(Some(cursor), p);
      && Read(r, [p], limit, heartbeat).frames == [StreamEnd]
      && (Sound(Read(r, [p], limit, heartbeat), o, p.log) <==> |p.log| <= cursor || p.log == [])
  {
    var r := Opened(Some(cursor), start);
    EndsAtOnce(r, p, limit, heartbeat);
    var r' := Turn(r, p, limit, heartbeat);
    hide Turn;
    assert [p][1..] == [];
    assert Read(r, [p], limit, heartbeat) == Read(r', [], limit, heartbeat);
    ReadStops(r', [], limit, heartbeat);
    hide Read;
    EmptyEnd(r', OriginOf(Some(cursor), p), p.log);
  }

  lemma EndsAtOnce(r: Reader, p: Poll, limit: nat, heartbeat: real)
    requires p.pruned == |p.log| && !p.disconnected && !p.active && r.frames == [] && !r.closed
    ensures Turn(r, p, limit, heartbeat) == Reader(r.current, r.lastBeat, [StreamEnd], true)
  {
    assert Batch(p, r.current, limit) == [];
    assert Frames([]) == [] && [] + [] + [StreamEnd] == [StreamEnd];
  }

  lemma EmptyEnd(r: Reader, o: Origin, log: seq<Event>)
    requires r.frames == [StreamEnd] && r.current == o.cursor && o.pruned == 0
    ensures Sound(r, o, log) <==> |log| <= o.cursor || log == []
  {
    DataOfMark([], StreamEnd);
    assert [] + [StreamEnd] == [StreamEnd];
    assert DataOf(r.frames) == [];
    hide DataOf;
  }

  /** The end is announced by a poll that found the job done, the last one made. */
  lemma {:induction false} EndAnnounced(r: Reader, log: seq<Event>, polls: seq<Poll>, limit: nat, heartbeat: real) returns (i: nat)
    requires Open(r.frames) && !r.closed && !Open(Read(r, polls, limit, heartbeat).frames)
    ensures i < |polls| && !polls[i].active && LastRead(r, log, polls, limit, heartbeat) == polls[i].log
    decreases |polls|
  {
    if polls[0].disconnected {
      assert false;
    } else {
      var r' := Turn(r, polls[0], limit, heartbeat);
      TurnMarks(r, polls[0], limit, heartbeat);
      hide Turn, Open;
      if r'.closed {
        i := 0;
      } else {
        i := EndAnnounced(r', polls[0].log, polls[1..], limit, heartbeat);
        i := i + 1;
      }
    }
  }

  /** The log last read is one of those polled. */
  lemma {:induction false} LastReadIsPolled(r: Reader, log: seq<Event>, polls: seq<Poll>, limit: nat, heartbeat: real, all: seq<Event>)
    requires log <= all && forall i :: 0 <= i < |polls| ==> polls[i].log <= all
    ensures LastRead(r, log, polls, limit, heartbeat) <= all
    decreases |polls|
  {
    hide Turn;
    if polls != [] && !r.closed && !polls[0].disconnected {
      LastReadIsPolled(Turn(r, polls[0], limit, heartbeat), polls[0].log, polls[1..], limit, heartbeat, all);
    }
  }

  // ---- the stream of a job of the queue ----

  /** When along a run a poll is made, and what retention has taken by then. */
  datatype Visit = Visit(at: nat, now: Time, pruned: nat, disconnected: bool)

  /** The poll of job `id` made at this point of the run. */
  ghost function PollAt(w: World, acts: seq<Action>, id: JobId, v: Visit): Poll
    requires v.at <= |acts|
  {
    var db := Run(w, acts[..v.at]).db;
    Poll(v.disconnected, v.now, Log(db, id), v.pruned, id !in db.jobs || !Terminal(db.jobs[id].state))
  }

  /** The polls of one connection: later and later in the run, while retention
      only takes more, and never what is not there yet. */
  ghost predicate PollsOf(w: World, acts: seq<Action>, id: JobId, visits: seq<Visit>, polls: seq<Poll>) {
    && |polls| == |visits|
    && (forall i :: 0 <= i < |visits| ==>
          visits[i].at <= |acts| && polls[i] == PollAt(w, acts, id, visits[i]) && polls[i].pruned <= |polls[i].log|)
    && (forall i, j :: 0 <= i <= j < |visits| ==> visits[i].at <= visits[j].at && visits[i].pruned <= visits[j].pruned)
  }

  lemma LogAt(w: World, acts: seq<Action>, id: JobId, i: nat, j: nat)
    requires Core(w) && Feasible(w, acts) && id in w.db.jobs && i <= j <= |acts|
    ensures var old', new' := Run(w, acts[..i]).db, Run(w, acts[..j]).db;
      && id in old'.jobs && id in old'.events && id in new'.jobs && id in new'.events
      && Numbered(old'.events[id]) && old'.events[id] <= new'.events[id]
  {
    hide Core, Numbered, Feasible, Run;
    RunPrefix(w, acts, i);
    RunKeepsCore(w, acts[..i]);
    JobFencing.LogsOverRuns(w, acts[..i], id);
    RunParts(w, acts, i, j);
    JobFencing.LogsOverRuns(Run(w, acts[..i]), acts[i..j], id);
  }

  /** Polls along a run, colliding claims or not, read one growing log. */
  lemma RunPollsGrow(w: World, acts: seq<Action>, id: JobId, visits: seq<Visit>, polls: seq<Poll>)
    requires Core(w) && Feasible(w, acts) && id in w.db.jobs && PollsOf(w, acts, id, visits, polls)
    ensures Growing(polls)
  {
    hide Core, Feasible, Run, Terminal;
    forall i, j | 0 <= i <= j < |polls|
      ensures LogShape(polls[i]) && polls[i].log <= polls[j].log && polls[i].pruned <= polls[j].pruned
    {
      LogAt(w, acts, id, visits[i].at, visits[j].at);
    }
  }

  /** The log at the end of the run holds all that its polls read, and no more
      than the poll that found the job done. */
  lemma PolledLogs(w: World, acts: seq<Action>, id: JobId, visits: seq<Visit>, polls: seq<Poll>, i: nat)
    requires Inv(w) && Exclusive(w, acts) && id in w.db.jobs && PollsOf(w, acts, id, visits, polls) && i < |polls|
    ensures id in Run(w, acts).db.events && polls[i].log <= Run(w, acts).db.events[id]
    ensures !polls[i].active ==> polls[i].log == Run(w, acts).db.events[id]
  {
    hide Inv, Core, Feasible, Exclusive, Run, Numbered;
    ExclusiveIsFeasible(w, acts);
    InvIsCore(w);
    var at := visits[i].at;
    assert acts[..|acts|] == acts;
    LogAt(w, acts, id, at, |acts|);
    if !polls[i].active { DoneIsAll(w, acts, id, at); }
  }

  lemma DoneIsAll(w: World, acts: seq<Action>, id: JobId, at: nat)
    requires Inv(w) && Exclusive(w, acts) && at <= |acts| && id in Run(w, acts[..at]).db.jobs
    requires Terminal(Run(w, acts[..at]).db.jobs[id].state)
    ensures id in Run(w, acts[..at]).db.events && id in Run(w, acts).db.events
    ensures Run(w, acts[..at]).db.events[id] == Run(w, acts).db.events[id]
  {
    hide Inv, Exclusive, Run;
    RunPrefix(w, acts, at);
    RunKeepsInv(w, acts[..at]);
    RunParts(w, acts, at, |acts|);
    assert acts[..|acts|] == acts;
    JobFencing.NothingAfterFinish(Run(w, acts[..at]), acts[at..|acts|], id);
  }

  lemma InvIsCore(w: World)
    requires Inv(w)
    ensures Core(w)
  {}

  /** A whole connection to a job of the queue, from the handshake on, its polls
      made at any points of a run. While retention stays behind the reader, the
      client holds the job's events after its start, in order, without gap or
      repeat; and once the end is announced it holds every event the job has at
      the end of the run, however long the run goes on. */
  lemma StreamOverRun(w: World, acts: seq<Action>, id: JobId, visits: seq<Visit>, h: Poll, polls: seq<Poll>,
                      cursor: Option<int>, start: Time, limit: nat, heartbeat: real)
    requires Inv(w) && Exclusive(w, acts) && id in w.db.jobs && PollsOf(w, acts, id, visits, [h] + polls)
    requires polls != [] && limit > 0
    requires h.pruned < |h.log| && Accepted(cursor, h) && KeptSince(cursor, h, polls[0])
    requires StaysAhead(Turn(Opened(cursor, start), polls[0], limit, heartbeat), OriginOf(cursor, polls[0]),
                        polls[1..], limit, heartbeat)
    ensures id in Run(w, acts).db.events
    ensures var r, o, all := Read(Opened(cursor, start), polls, limit, heartbeat), OriginOf(cursor, polls[0]), Run(w, acts).db.events[id];
      && Delivered(r, o, all)
      && (!Open(r.frames) ==> DataOf(r.frames) == if o.Start() < |all| then all[o.Start()..] else [])
  {
    ExclusiveIsFeasible(w, acts);
    InvIsCore(w);
    hide Inv, Core, Feasible, Exclusive, Run, Accepted, StaysAhead, PollsOf, Read, Turn, Delivered, Open, Growing, LogShape;
    RunPollsGrow(w, acts, id, visits, [h] + polls);
    TailGrows(h, polls);
    PolledLogs(w, acts, id, visits, [h] + polls, 0);
    var all := Run(w, acts).db.events[id];
    forall i | 0 <= i < |polls| ensures polls[i].log <= all && (!polls[i].active ==> polls[i].log == all) {
      PolledLogs(w, acts, id, visits, [h] + polls, i + 1);
      assert ([h] + polls)[i + 1] == polls[i];
    }
    StreamOverLog(h, polls, all, cursor, start, limit, heartbeat);
  }

  /** The same for any growing log, `all` of which a poll that finds the job done
      has read. */
  lemma StreamOverLog(h: Poll, polls: seq<Poll>, all: seq<Event>, cursor: Option<int>, start: Time, limit: nat, heartbeat: real)
    requires polls != [] && LogShape(h) && Growing(polls) && limit > 0
    requires forall i :: 0 <= i < |polls| ==> polls[i].log <= all && (!polls[i].active ==> polls[i].log == all)
    requires h.pruned < |h.log| && Accepted(cursor, h) && KeptSince(cursor, h, polls[0])
    requires StaysAhead(Turn(Opened(cursor, start), polls[0], limit, heartbeat), OriginOf(cursor, polls[0]),
                        polls[1..], limit, heartbeat)
    ensures var r, o := Read(Opened(cursor, start), polls, limit, heartbeat), OriginOf(cursor, polls[0]);
      && Delivered(r, o, all)
      && (!Open(r.frames) ==> DataOf(r.frames) == if o.Start() < |all| then all[o.Start()..] else [])
  {
    hide Accepted, StaysAhead, AllInTime, Read, LastRead, Turn, Delivered, Open, Growing, LogShape, KeptSince, OriginOf;
    AcceptedStreamDelivers(cursor, start, h, polls, limit, heartbeat);
    OpensOpen(cursor, start);
    hide Opened;
    var r0, o := Opened(cursor, start), OriginOf(cursor, polls[0]);
    var r, last := Read(r0, polls, limit, heartbeat), LastRead(r0, [], polls, limit, heartbeat);
    LastReadIsPolled(r0, [], polls, limit, heartbeat, all);
    SameDelivered(r, o, last, all);
    if !Open(r.frames) {
      var i := EndAnnounced(r0, [], polls, limit, heartbeat);
      CompleteIsAll(r, o, all);
    }
  }

  lemma OpensOpen(cursor: Option<int>, start: Time)
    ensures Open(Opened(cursor, start).frames) && !Opened(cursor, start).closed
  {}

  lemma TailGrows(h: Poll, polls: seq<Poll>)
    requires Growing([h] + polls)
    ensures Growing(polls) && LogShape(h)
  {
    hide LogShape;
    assert forall i :: 0 <= i < |polls| ==> ([h] + polls)[i + 1] == polls[i];
    assert ([h] + polls)[0] == h;
  }

  lemma CompleteIsAll(r: Reader, o: Origin, all: seq<Event>)
    requires Delivered(r, o, all) && |all| <= At(r, o)
    ensures DataOf(r.frames) == if o.Start() < |all| then all[o.Start()..] else []
  {
    hide DataOf;
  }
}
