/** The bounded ring of node events with its lossy watcher channels. */
module EventRing {

  const DEFAULT_CAPACITY: nat := 4096
  const MAX_PAGE: nat := 1000
  const WATCHER_BUFFER: nat := 256

  datatype Event = Event(sequence: nat, lab: string, text: string)

  /** A watcher wants the events of one lab, or of all when `lab` is empty. */
  predicate Wants(lab: string, e: Event) { lab == "" || e.lab == lab }

  predicate Increasing(events: seq<Event>) {
    forall i, j | 0 <= i < j < |events| :: events[i].sequence < events[j].sequence
  }

  /** The events of `items` that a reader of `lab` at cursor `after` has not seen. */
  function Matching(items: seq<Event>, after: nat, lab: string): seq<Event> {
    if items == [] then []
    else
      var rest := Matching(items[..|items| - 1], after, lab);
      var last := items[|items| - 1];
      if last.sequence > after && Wants(lab, last) then rest + [last] else rest
  }

  function Take(events: seq<Event>, limit: nat): seq<Event> {
    if |events| <= limit then events else events[..limit]
  }

  function PageLimit(limit: int): nat {
    if limit <= 0 || limit > MAX_PAGE then MAX_PAGE else limit
  }

  /** The cursor after reading a page. */
  function Cursor(page: seq<Event>, after: nat): nat {
    if page == [] then after else page[|page| - 1].sequence
  }

  /** The last `capacity` events of a list. */
  function Retained(events: seq<Event>, capacity: nat): seq<Event> {
    if |events| > capacity then events[|events| - capacity..] else events
  }

  /** A send to a full channel is dropped. */
  function Sent(channel: seq<Event>, e: Event): seq<Event> {
    if |channel| < WATCHER_BUFFER then channel + [e] else channel
  }

  datatype Watcher = Watcher(lab: string, channel: seq<Event>)

  function Notified(w: Watcher, e: Event): Watcher {
    if Wants(w.lab, e) then w.(channel := Sent(w.channel, e)) else w
  }

  lemma {:induction false} MatchingMembers(items: seq<Event>, after: nat, lab: string)
    ensures forall e :: e in Matching(items, after, lab) <==>
              e in items && e.sequence > after && Wants(lab, e)
    ensures Increasing(items) ==> Increasing(Matching(items, after, lab))
  {
    if items != [] {
      var init, last := items[..|items| - 1], items[|items| - 1];
      assert items == init + [last];
      MatchingMembers(init, after, lab);
      if Increasing(items) {
        var rest := Matching(init, after, lab);
        forall e | e in rest ensures e.sequence < last.sequence {
          assert e in init;
        }
      }
    }
  }

  // ---------- increasing sequences ----------

  lemma IncreasingAppend(events: seq<Event>, e: Event)
    requires Increasing(events) && forall x :: x in events ==> x.sequence < e.sequence
    ensures Increasing(events + [e])
  {
    assert forall i | 0 <= i < |events| :: events[i] in events;
  }

  lemma IncreasingRest(events: seq<Event>)
    requires Increasing(events) && events != []
    ensures Increasing(events[1..]) && events[0] in events
    ensures forall x :: x in events <==> x == events[0] || x in events[1..]
    ensures forall x :: x in events[1..] ==> events[0].sequence < x.sequence
    ensures forall after :: Cursor(events[1..], events[0].sequence) == Cursor(events, after) >= events[0].sequence
  {
    assert events == [events[0]] + events[1..];
    forall x | x in events[1..] ensures events[0].sequence < x.sequence {
      var i :| 1 <= i < |events| && events[i] == x;
    }
  }

  lemma TakeCovers(events: seq<Event>, limit: nat, after: nat)
    requires Increasing(events) && limit > 0
    ensures var page := Take(events, limit);
            && Increasing(page) && (page == [] <==> events == [])
            && (forall x :: x in page ==> x in events)
            && (forall x :: x in events && after < x.sequence <= Cursor(page, after) ==> x in page)
  {
    var page := Take(events, limit);
    forall x | x in events && after < x.sequence <= Cursor(page, after) ensures x in page {
      var j :| 0 <= j < |events| && events[j] == x;
      if page != [] {
        assert page[|page| - 1] == events[|page| - 1];
        assert j < |page|;
        assert page[j] == x;
      }
    }
  }

  // ---------- the ring ----------

  class Ring {
    const capacity: nat
    var next: nat
    var items: seq<Event>
    var watchers: map<nat, Watcher>
    var nextWatch: nat

    ghost predicate Valid()
      reads this
    {
      0 < capacity && |items| <= capacity
    }

    constructor (size: int)
      ensures Valid()
      ensures capacity == (if size <= 0 then DEFAULT_CAPACITY else size)
      ensures next == 0 && items == [] && watchers == map[] && nextWatch == 0
    {
      capacity := if size <= 0 then DEFAULT_CAPACITY else size;
      next, items, watchers, nextWatch := 0, [], map[], 0;
    }

    /** Takes journalled events over; later events are numbered above all of them. */
    method Restore(events: seq<Event>)
      requires Valid()
      modifies this`items, this`next
      ensures Valid()
      ensures items == Retained(events, capacity)
      ensures |items| == (if |events| < capacity then |events| else capacity)
      ensures items == events[|events| - |items|..]
      ensures next >= old(next) && (forall e :: e in items ==> e.sequence <= next)
      ensures next == old(next) || exists e :: e in items && e.sequence == next
    {
      var kept := events;
      if |kept| > capacity {
        kept := kept[|kept| - capacity..];
      }
      items := kept;
      var i := 0;
      while i < |items|
        invariant i <= |items| && items == kept
        invariant next >= old(next)
        invariant forall j | 0 <= j < i :: items[j].sequence <= next
        invariant next == old(next) || exists e :: e in items && e.sequence == next
      {
        if items[i].sequence > next {
          next := items[i].sequence;
          assert items[i] in items && items[i].sequence == next;
        }
        i := i + 1;
      }
    }

    /** Numbers the event, keeps the newest ones and offers it to every watcher. */
    method Append(lab: string, text: string) returns (event: Event)
      requires Valid()
      modifies this`items, this`next, this`watchers
      ensures Valid()
      ensures event == Event(old(next) + 1, lab, text) && next == old(next) + 1
      ensures items == Retained(old(items) + [event], capacity)
      ensures items == if |old(items)| < capacity then old(items) + [event] else old(items)[1..] + [event]
      ensures watchers.Keys == old(watchers).Keys
      ensures forall id :: id in watchers ==>
        && watchers[id].lab == old(watchers)[id].lab
        && watchers[id].channel ==
           if (watchers[id].lab == "" || watchers[id].lab == lab) && |old(watchers)[id].channel| < WATCHER_BUFFER
           then old(watchers)[id].channel + [event] else old(watchers)[id].channel
      ensures forall id :: id in watchers ==> watchers[id] == Notified(old(watchers)[id], event)
    {
      next := next + 1;
      event := Event(next, lab, text);
      items := items + [event];
      if |items| > capacity {
        items := items[|items| - capacity..];
      }
      var todo := watchers.Keys;
      while todo != {}
        invariant todo <= watchers.Keys == old(watchers).Keys
        invariant items == Retained(old(items) + [event], capacity) && next == old(next) + 1
        invariant forall id :: id in watchers ==>
          watchers[id] == if id in todo then old(watchers)[id] else Notified(old(watchers)[id], event)
        decreases todo
      {
        var id :| id in todo;
        todo := todo - {id};
        var watcher := watchers[id];
        if watcher.lab == "" || watcher.lab == event.lab {
          if |watcher.channel| < WATCHER_BUFFER {
            watchers := watchers[id := watcher.(channel := watcher.channel + [event])];
          }
        }
      }
    }

    /** At most `limit` matching events, in order. */
    method Collect(after: nat, lab: string, limit: nat) returns (page: seq<Event>, cursor: nat)
      requires limit > 0
      ensures page == Take(Matching(items, after, lab), limit) && cursor == Cursor(page, after)
    {
      page, cursor := [], after;
      var i := 0;
      while i < |items| && |page| < limit
        invariant i <= |items|
        invariant page == Matching(items[..i], after, lab) && |page| <= limit
        invariant cursor == Cursor(page, after)
      {
        var event := items[i];
        assert items[..i + 1][..i] == items[..i];
        if event.sequence > after && (lab == "" || event.lab == lab) {
          page := page + [event];
          cursor := event.sequence;
        }
        i := i + 1;
      }
      MatchingPrefix(items, i, after, lab);
      if i == |items| {
        assert items[..i] == items;
      } else {
        assert page == Matching(items, after, lab)[..limit];
      }
    }

    method After(after: nat, lab: string, limit: int) returns (page: seq<Event>, cursor: nat)
      ensures page == Take(Matching(items, after, lab), PageLimit(limit)) && cursor == Cursor(page, after)
      ensures |page| <= if 0 < limit <= MAX_PAGE then limit else MAX_PAGE
      ensures forall e :: e in page ==> e in items && e.sequence > after && (lab == "" || e.lab == lab)
      ensures |page| < (if 0 < limit <= MAX_PAGE then limit else MAX_PAGE) ==>
        forall e :: e in items && e.sequence > after && (lab == "" || e.lab == lab) ==> e in page
      ensures page != [] ==> cursor == page[|page| - 1].sequence
      ensures page == [] ==> cursor == after
    {
      MatchingMembers(items, after, lab);
      page, cursor := Collect(after, lab, PageLimit(limit));
    }

    /** Every retained matching event, and a watcher for the ones that follow. */
    method Subscribe(after: nat, lab: string) returns (initial: seq<Event>, cursor: nat, id: nat)
      requires Valid()
      modifies this`watchers, this`nextWatch
      ensures Valid()
      ensures initial == Matching(items, after, lab) && cursor == Cursor(initial, after)
      ensures forall e :: e in initial <==> e in items && e.sequence > after && (lab == "" || e.lab == lab)
      ensures id == old(nextWatch) + 1 == nextWatch
      ensures watchers == old(watchers)[id := Watcher(lab, [])]
    {
      MatchingMembers(items, after, lab);
      initial, cursor := Collect(after, lab, capacity);
      MatchingIsShort(items, after, lab);
      nextWatch := nextWatch + 1;
      id := nextWatch;
      watchers := watchers[id := Watcher(lab, [])];
    }
  }

  /** What matches in a prefix is a prefix of what matches. */
  lemma {:induction false} MatchingPrefix(items: seq<Event>, i: nat, after: nat, lab: string)
    requires i <= |items|
    ensures Matching(items[..i], after, lab) <= Matching(items, after, lab)
    decreases |items| - i
  {
    if i < |items| {
      assert items[..i + 1][..i] == items[..i];
      MatchingPrefix(items, i + 1, after, lab);
    } else {
      assert items[..i] == items;
    }
  }

  lemma {:induction false} MatchingIsShort(items: seq<Event>, after: nat, lab: string)
    ensures |Matching(items, after, lab)| <= |items|
  {
    if items != [] {
      MatchingIsShort(items[..|items| - 1], after, lab);
    }
  }
}
