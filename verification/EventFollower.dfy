/**
 A follower of the event ring: over every interleaving of appends and follower
 steps it writes events in order, and an event it never writes had left the
 ring before the follower passed it, although a full channel drops events.
 */
module EventFollower {
  import opened EventRing

  /**
   Where the follow loop is: writing the page it read, about to read the ring
   again, or waiting on its channel after an empty read.
   */
  datatype Phase = Writing(page: seq<Event>) | Reading | Waiting | Stopped

  /** `log` is everything the ring ever held, in order; `items` is its end. */
  datatype State = State(
    capacity: nat, log: seq<Event>, items: seq<Event>, next: nat,
    lab: string, start: nat, cursor: nat, channel: seq<Event>, phase: Phase, written: seq<Event>)

  datatype Action =
    | Append(lab: string, text: string)
    | Write(ok: bool)
    | Read
    | Receive(ok: bool)
    | Disconnect

  function AppendStep(s: State, lab: string, text: string): State {
    var e := Event(s.next + 1, lab, text);
    s.(log := s.log + [e], items := Retained(s.items + [e], s.capacity), next := s.next + 1,
       channel := Notified(Watcher(s.lab, s.channel), e).channel)
  }

  /** Writes one event and moves the cursor, or stops when the connection is gone. */
  function Emit(s: State, e: Event, then_: Phase, ok: bool): State {
    if ok then s.(written := s.written + [e], cursor := e.sequence, phase := then_)
    else s.(phase := Stopped)
  }

  function WriteStep(s: State, ok: bool): State
    requires s.phase.Writing?
  {
    if s.phase.page == [] then s.(phase := Reading)
    else Emit(s, s.phase.page[0], Writing(s.phase.page[1..]), ok)
  }

  /** Drains the ring first; only an empty read goes on to the channel. */
  function ReadStep(s: State): State {
    var page := Take(Matching(s.items, s.cursor, s.lab), PageLimit(DEFAULT_CAPACITY));
    s.(phase := if page == [] then Waiting else Writing(page))
  }

  function ReceiveStep(s: State, ok: bool): State
    requires s.channel != []
  {
    var e, rest := s.channel[0], s.(channel := s.channel[1..]);
    if e.sequence <= s.cursor then rest.(phase := Reading) else Emit(rest, e, Reading, ok)
  }

  function Step(s: State, e: Action): State {
    match e
    case Append(lab, text) => AppendStep(s, lab, text)
    case Write(ok) => if s.phase.Writing? then WriteStep(s, ok) else s
    case Read => if s.phase.Reading? then ReadStep(s) else s
    case Receive(ok) => if s.phase.Waiting? && s.channel != [] then ReceiveStep(s, ok) else s
    case Disconnect => s.(phase := Stopped)
  }

  /** A subscription to a ring whose retained events are numbered in order. */
  ghost predicate Init(s: State) {
    && s.log == s.items && Increasing(s.items)
    && (forall e :: e in s.items ==> e.sequence <= s.next)
    && s.cursor == s.start && s.channel == [] && s.written == []
    && s.phase == Writing(Matching(s.items, s.start, s.lab))
  }

  ghost predicate StepAt(ss: seq<State>, es: seq<Action>, i: nat)
    requires |ss| == |es| + 1 && i < |es|
  {
    ss[i + 1] == Step(ss[i], es[i])
  }

  ghost predicate IsRun(ss: seq<State>, es: seq<Action>) {
    && |ss| == |es| + 1
    && Init(ss[0])
    && forall i | 0 <= i < |es| :: StepAt(ss, es, i)
  }

  // ---------- the invariant ----------

  /** The ring is numbered in order and is the end of its log. */
  ghost predicate RingInv(s: State) {
    && Increasing(s.log)
    && (forall e :: e in s.log ==> e.sequence <= s.next)
    && IsEnd(s.items, s.log)
  }

  ghost predicate IsEnd(items: seq<Event>, log: seq<Event>) {
    |items| <= |log| && items == log[|log| - |items|..]
  }

  /** What was written is in order, wanted, and comes from the log. */
  ghost predicate WrittenInv(s: State) {
    && Increasing(s.written)
    && (forall e :: e in s.written ==>
          e in s.log && Wants(s.lab, e) && s.start < e.sequence <= s.cursor)
    && s.start <= s.cursor && (s.cursor == s.start || s.cursor <= s.next)
  }

  /** The channel holds wanted events in order. */
  ghost predicate ChannelInv(s: State) {
    && Increasing(s.channel) && |s.channel| <= WATCHER_BUFFER
    && (forall e :: e in s.channel ==> e in s.log && Wants(s.lab, e))
  }

  /** Every retained wanted event up to the cursor was written. */
  ghost predicate Complete(s: State) {
    forall e :: e in s.items && Wants(s.lab, e) && s.start < e.sequence <= s.cursor ==> e in s.written
  }

  /** The page is in order, past the cursor, and skips no retained wanted event. */
  ghost predicate PageInv(s: State, page: seq<Event>) {
    && Increasing(page)
    && (forall e :: e in page ==> e in s.log && Wants(s.lab, e) && s.cursor < e.sequence)
    && (forall e :: e in s.items && Wants(s.lab, e) && s.cursor < e.sequence <= Cursor(page, s.cursor) ==>
          e in page)
  }

  /** A retained wanted event past the cursor is in the channel, or arrived when that was full. */
  ghost predicate ChannelCovers(s: State) {
    forall e :: e in s.items && Wants(s.lab, e) && s.cursor < e.sequence ==>
      || e in s.channel
      || (|s.channel| == WATCHER_BUFFER && forall c :: c in s.channel ==> c.sequence < e.sequence)
  }

  ghost predicate Inv(s: State) {
    && RingInv(s) && WrittenInv(s) && ChannelInv(s) && Complete(s)
    && (s.phase.Writing? ==> PageInv(s, s.phase.page))
    && (s.phase.Waiting? ==> ChannelCovers(s))
  }

  // ---------- every step keeps it ----------

  lemma InitInv(s: State)
    requires Init(s)
    ensures Inv(s)
  {
    MatchingMembers(s.items, s.start, s.lab);
  }

  lemma RetainedIsEnd(log: seq<Event>, items: seq<Event>, e: Event, capacity: nat)
    requires IsEnd(items, log)
    ensures var kept := Retained(items + [e], capacity);
            IsEnd(kept, log + [e]) && forall x :: x in kept ==> x in items || x == e
  {
    assert items + [e] == (log + [e])[|log| - |items|..];
  }

  lemma AppendKeepsRing(s: State, lab: string, text: string)
    requires RingInv(s)
    ensures RingInv(AppendStep(s, lab, text))
  {
    var e := Event(s.next + 1, lab, text);
    RetainedIsEnd(s.log, s.items, e, s.capacity);
    IncreasingAppend(s.log, e);
  }

  lemma AppendKeepsChannel(s: State, lab: string, text: string)
    requires RingInv(s) && ChannelInv(s)
    ensures ChannelInv(AppendStep(s, lab, text))
  {
    var e := Event(s.next + 1, lab, text);
    assert forall x :: x in s.channel ==> x in s.log;
    IncreasingAppend(s.channel, e);
  }

  /** What a new event leaves retained. */
  lemma RetainedAfterAppend(s: State, lab: string, text: string, x: Event)
    requires RingInv(s) && x in AppendStep(s, lab, text).items
    ensures x in s.items || x.sequence == s.next + 1
  {
    RetainedIsEnd(s.log, s.items, Event(s.next + 1, lab, text), s.capacity);
  }

  lemma AppendKeepsPage(s: State, lab: string, text: string)
    requires RingInv(s) && s.phase.Writing? && PageInv(s, s.phase.page)
    ensures PageInv(AppendStep(s, lab, text), s.phase.page)
  {
    var s', page := AppendStep(s, lab, text), s.phase.page;
    if page != [] {
      assert page[|page| - 1] in page;
    }
    forall x | x in s'.items && Wants(s.lab, x) && s.cursor < x.sequence <= Cursor(page, s.cursor)
      ensures x in page
    {
      RetainedAfterAppend(s, lab, text, x);
    }
    assert forall x :: x in s.log ==> x in s'.log;
  }

  lemma AppendKeepsCover(s: State, lab: string, text: string)
    requires RingInv(s) && ChannelInv(s) && ChannelCovers(s)
    ensures ChannelCovers(AppendStep(s, lab, text))
  {
    var e := Event(s.next + 1, lab, text);
    RetainedIsEnd(s.log, s.items, e, s.capacity);
    assert forall c :: c in s.channel ==> c.sequence < e.sequence;
  }

  lemma AppendKeepsComplete(s: State, lab: string, text: string)
    requires RingInv(s) && WrittenInv(s) && Complete(s)
    ensures WrittenInv(AppendStep(s, lab, text)) && Complete(AppendStep(s, lab, text))
  {
    var s' := AppendStep(s, lab, text);
    assert forall x :: x in s.log ==> x in s'.log;
    forall x | x in s'.items && Wants(s.lab, x) && s.start < x.sequence <= s.cursor ensures x in s.written {
      RetainedAfterAppend(s, lab, text, x);
    }
  }

  lemma AppendKeeps(s: State, lab: string, text: string)
    requires Inv(s)
    ensures Inv(AppendStep(s, lab, text))
  {
    AppendKeepsRing(s, lab, text);
    AppendKeepsChannel(s, lab, text);
    AppendKeepsComplete(s, lab, text);
    if s.phase.Writing? { AppendKeepsPage(s, lab, text); }
    if s.phase.Waiting? { AppendKeepsCover(s, lab, text); }
  }

  /** Writing the next event keeps order and completeness, when nothing retained lies before it. */
  lemma EmitKeeps(s: State, e: Event, then_: Phase)
    requires RingInv(s) && WrittenInv(s) && Complete(s)
    requires e in s.log && Wants(s.lab, e) && s.cursor < e.sequence
    requires forall x :: x in s.items && Wants(s.lab, x) && s.cursor < x.sequence <= e.sequence ==> x == e
    ensures var s' := Emit(s, e, then_, true);
            RingInv(s') && WrittenInv(s') && Complete(s')
  {
    IncreasingAppend(s.written, e);
  }

  lemma WriteKeeps(s: State, ok: bool)
    requires Inv(s) && s.phase.Writing?
    ensures Inv(WriteStep(s, ok))
  {
    var page := s.phase.page;
    if page != [] && ok {
      IncreasingRest(page);
      EmitKeeps(s, page[0], Writing(page[1..]));
      RestOfPage(s, page);
    }
  }

  lemma RestOfPage(s: State, page: seq<Event>)
    requires PageInv(s, page) && page != []
    ensures PageInv(Emit(s, page[0], Writing(page[1..]), true), page[1..])
  {
    IncreasingRest(page);
  }

  lemma ReadKeeps(s: State)
    requires Inv(s)
    ensures Inv(ReadStep(s))
    ensures ReadStep(s).phase.Waiting? ==> CaughtUp(s)
  {
    MatchingMembers(s.items, s.cursor, s.lab);
    TakeCovers(Matching(s.items, s.cursor, s.lab), PageLimit(DEFAULT_CAPACITY), s.cursor);
  }

  /** Nothing retained lies between the cursor and the head of the channel. */
  lemma HeadIsNext(s: State, x: Event)
    requires ChannelInv(s) && ChannelCovers(s) && s.channel != []
    requires x in s.items && Wants(s.lab, x) && s.cursor < x.sequence <= s.channel[0].sequence
    ensures x == s.channel[0]
  {
    IncreasingRest(s.channel);
  }

  lemma ReceiveKeeps(s: State, ok: bool)
    requires Inv(s) && s.phase.Waiting? && s.channel != []
    ensures Inv(ReceiveStep(s, ok))
  {
    var e, rest := s.channel[0], s.(channel := s.channel[1..]);
    IncreasingRest(s.channel);
    if s.cursor < e.sequence && ok {
      forall x | x in s.items && Wants(s.lab, x) && s.cursor < x.sequence <= e.sequence ensures x == e {
        HeadIsNext(s, x);
      }
      EmitKeeps(rest, e, Reading);
    }
  }

  lemma {:induction false} RunKeeps(ss: seq<State>, es: seq<Action>, n: nat)
    requires IsRun(ss, es) && n < |ss|
    ensures Inv(ss[n])
  {
    if n == 0 {
      InitInv(ss[0]);
    } else {
      assert StepAt(ss, es, n - 1);
      RunKeeps(ss, es, n - 1);
      var s, e := ss[n - 1], es[n - 1];
      match e
      case Append(lab, text) => AppendKeeps(s, lab, text);
      case Write(ok) => if s.phase.Writing? { WriteKeeps(s, ok); }
      case Read => if s.phase.Reading? { ReadKeeps(s); }
      case Receive(ok) => if s.phase.Waiting? && s.channel != [] { ReceiveKeeps(s, ok); }
      case Disconnect =>
    }
  }

  // ---------- what a follower can rely on ----------

  /** What was written is written in the ring's order, without repeats. */
  lemma WrittenInOrder(ss: seq<State>, es: seq<Action>, n: nat)
    requires IsRun(ss, es) && n < |ss|
    ensures Increasing(ss[n].written)
    ensures forall e :: e in ss[n].written ==>
      e in ss[n].log && Wants(ss[n].lab, e) && ss[n].start < e.sequence
  {
    RunKeeps(ss, es, n);
  }

  /**
   A wanted event that the cursor passed without its being written is no longer
   retained; as events never come back, it was evicted before it was passed.
   */
  lemma SkippedWasEvicted(ss: seq<State>, es: seq<Action>, n: nat, e: Event)
    requires IsRun(ss, es) && n < |ss|
    requires e in ss[n].log && Wants(ss[n].lab, e) && ss[n].start < e.sequence <= ss[n].cursor
    requires e !in ss[n].written
    ensures e !in ss[n].items
  {
    RunKeeps(ss, es, n);
  }

  /** Every retained wanted event past the start was written. */
  ghost predicate CaughtUp(s: State) {
    forall e :: e in s.items && Wants(s.lab, e) && s.start < e.sequence ==> e in s.written
  }

  /** A follower goes to its channel only when it has caught up with the ring. */
  lemma WaitsOnlyCaughtUp(ss: seq<State>, es: seq<Action>, n: nat)
    requires IsRun(ss, es) && n < |es|
    requires es[n] == Read && ss[n].phase.Reading? && ss[n + 1].phase.Waiting?
    ensures CaughtUp(ss[n + 1])
  {
    assert StepAt(ss, es, n);
    RunKeeps(ss, es, n);
    ReadKeeps(ss[n]);
  }

  /** One action of a run: the retained events that remain were retained before, or are new. */
  lemma NothingComesBack(ss: seq<State>, es: seq<Action>, n: nat, e: Event)
    requires IsRun(ss, es) && n < |es|
    requires e in ss[n].log && e !in ss[n].items
    ensures e in ss[n + 1].log && e !in ss[n + 1].items
  {
    assert StepAt(ss, es, n);
    RunKeeps(ss, es, n);
    if es[n].Append? {
      RetainedIsEnd(ss[n].log, ss[n].items, Event(ss[n].next + 1, es[n].lab, es[n].text), ss[n].capacity);
    }
  }

  // ---------- the follow loop over a ring ----------

  /** A follow request: its subscription to a ring, its cursor and what it wrote. */
  class Follower {
    const ring: Ring
    const id: nat
    const lab: string
    var cursor: nat
    var phase: Phase
    var written: seq<Event>
    ghost const start: nat
    /** Everything the ring held since the subscription. */
    ghost var log: seq<Event>

    ghost predicate Valid()
      reads this, ring
    {
      ring.Valid() && id in ring.watchers && ring.watchers[id].lab == lab
    }

    ghost function Abs(): State
      requires Valid()
      reads this, ring
    {
      State(ring.capacity, log, ring.items, ring.next, lab, start, cursor, ring.watchers[id].channel, phase, written)
    }

    constructor (events: Ring, after: nat, wanted: string)
      requires events.Valid() && Increasing(events.items)
      requires forall e :: e in events.items ==> e.sequence <= events.next
      modifies events
      ensures ring == events && Valid() && Init(Abs())
      ensures events.items == old(events.items) && start == after && lab == wanted
    {
      var initial, _, watch := events.Subscribe(after, wanted);
      ring, id, lab := events, watch, wanted;
      cursor, phase, written := after, Writing(initial), [];
      start, log := after, events.items;
    }

    /** Something else on the node records an event. */
    method Recorded(source: string, text: string)
      requires Valid()
      modifies this`log, ring
      ensures Valid() && Abs() == AppendStep(old(Abs()), source, text)
    {
      var event := ring.Append(source, text);
      log := log + [event];
    }

    method WriteNext(ok: bool)
      requires Valid() && phase.Writing?
      modifies this
      ensures Valid() && Abs() == WriteStep(old(Abs()), ok)
    {
      if phase.page == [] {
        phase := Reading;
      } else if ok {
        var event := phase.page[0];
        written, cursor, phase := written + [event], event.sequence, Writing(phase.page[1..]);
      } else {
        phase := Stopped;
      }
    }

    method ReadRing()
      requires Valid() && phase.Reading?
      modifies this
      ensures Valid() && Abs() == ReadStep(old(Abs()))
    {
      var backlog, _ := ring.After(cursor, lab, DEFAULT_CAPACITY);
      phase := if |backlog| > 0 then Writing(backlog) else Waiting;
    }

    method Receive(ok: bool)
      requires Valid() && phase.Waiting? && ring.watchers[id].channel != []
      modifies this, ring
      ensures Valid() && Abs() == ReceiveStep(old(Abs()), ok)
    {
      var watcher := ring.watchers[id];
      var event := watcher.channel[0];
      ring.watchers := ring.watchers[id := watcher.(channel := watcher.channel[1..])];
      if event.sequence <= cursor {
        phase := Reading;
      } else if ok {
        written, cursor, phase := written + [event], event.sequence, Reading;
      } else {
        phase := Stopped;
      }
    }
  }
}
