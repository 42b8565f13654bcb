// The completion ring of fs/aio.c: its layout in pages, and the producer and
// consumer sides of aio_complete and aio_read_evt as a history of events.
module AioRing {
  import opened Arithmetic

  datatype Event = Event(req: nat, res: int)

  datatype Option<T> = None | Some(value: T)

  // nr, the slots, head and tail as aio_setup_ring, aio_read_evt and aio_complete
  // keep them; reader is the event copied out but not yet acknowledged.  posted and
  // delivered are the events published and handed to readers since setup.
  datatype Ring = Ring(nr: nat, slots: seq<Event>, head: nat, tail: nat, reader: Option<Event>,
                       posted: seq<Event>, delivered: seq<Event>)

  function Unread(r: Ring): int {
    |r.posted| - |r.delivered|
  }

  // aio_ring_avail
  function Avail(r: Ring): int
    requires r.nr > 0
  {
    (r.head + r.nr - 1 - r.tail) % r.nr
  }

  ghost predicate Inv(r: Ring) {
    && r.nr > 0 && |r.slots| == r.nr
    && r.delivered <= r.posted && Unread(r) < r.nr
    && r.head == |r.delivered| % r.nr && r.tail == |r.posted| % r.nr
    && (forall i | |r.delivered| <= i < |r.posted| :: Slot(r, i) == r.posted[i])
    && (r.reader.Some? ==> Unread(r) > 0 && r.reader.value == r.posted[|r.delivered|])
  }

  // the slot that event number i is stored in
  function Slot(r: Ring, i: nat): Event
    requires r.nr > 0 && |r.slots| == r.nr
  {
    r.slots[i % r.nr]
  }

  function Setup(slots: seq<Event>): Ring {
    Ring(|slots|, slots, 0, 0, None, [], [])
  }

  // the event is stored at tail, which still hides it from readers
  function Write(r: Ring, e: Event): Ring
    requires r.tail < |r.slots|
  {
    r.(slots := r.slots[r.tail := e])
  }

  function Publish(r: Ring, e: Event): Ring
    requires r.nr > 0
  {
    r.(tail := (r.tail + 1) % r.nr, posted := r.posted + [e])
  }

  // the two halves of aio_read_evt, under ring_lock
  predicate CanCopy(r: Ring) {
    r.reader.None? && r.nr > 0 && r.head % r.nr != r.tail && |r.slots| == r.nr
  }

  function Copy(r: Ring): Ring
    requires CanCopy(r)
  {
    r.(reader := Some(r.slots[r.head % r.nr]))
  }

  function Acknowledge(r: Ring): Ring
    requires r.reader.Some? && r.nr > 0
  {
    r.(head := (r.head % r.nr + 1) % r.nr, reader := None, delivered := r.delivered + [r.reader.value])
  }

  // ------------------------------------------------------------ the history

  // the free count is the ring size less one less the unread events
  lemma AvailIsFree(r: Ring)
    requires Inv(r)
    ensures Avail(r) == r.nr - 1 - Unread(r)
  {
    ModWindow(|r.delivered|, |r.posted|, r.nr);
    var u := Unread(r);
    var x := r.head + r.nr - 1 - r.tail;
    if r.head + u < r.nr {
      ModIs(x, r.nr, 0, r.nr - 1 - u);
    } else {
      assert x == r.nr * 1 + (r.nr - 1 - u);
      ModIs(x, r.nr, 1, r.nr - 1 - u);
    }
  }

  // with a free slot, no unread event sits where the next one is written
  lemma WriteKeeps(r: Ring, e: Event)
    requires Inv(r) && Unread(r) < r.nr - 1
    ensures Inv(Write(r, e)) && Write(r, e).slots[r.tail] == e
    ensures forall i | |r.delivered| <= i < |r.posted| :: i % r.nr != r.tail
  {
    forall i | |r.delivered| <= i < |r.posted|
      ensures i % r.nr != r.tail && Slot(Write(r, e), i) == Slot(r, i)
    {
      ModWindow(i, |r.posted|, r.nr);
    }
  }

  lemma PublishKeeps(r: Ring, e: Event)
    requires Inv(r) && Unread(r) < r.nr - 1 && r.slots[r.tail] == e
    ensures Inv(Publish(r, e)) && Unread(Publish(r, e)) == Unread(r) + 1
  {
    NextMod(|r.posted|, r.nr);
    var p := Publish(r, e);
    forall i | |p.delivered| <= i < |p.posted|
      ensures Slot(p, i) == p.posted[i]
    {
      if i < |r.posted| { assert Slot(r, i) == r.posted[i]; }
    }
  }

  // an unread event exists exactly when head differs from tail
  lemma HeadIsTail(r: Ring)
    requires Inv(r)
    ensures r.head % r.nr == r.tail <==> Unread(r) == 0
  {
    ModIs(r.head, r.nr, 0, r.head);
    ModWindow(|r.delivered|, |r.posted|, r.nr);
  }

  lemma CopyKeeps(r: Ring)
    requires Inv(r) && CanCopy(r)
    ensures Inv(Copy(r))
  {
    HeadIsTail(r);
    ModIs(r.head, r.nr, 0, r.head);
    assert Slot(r, |r.delivered|) == r.posted[|r.delivered|];
  }

  lemma AcknowledgeKeeps(r: Ring)
    requires Inv(r) && r.reader.Some?
    ensures Inv(Acknowledge(r)) && Unread(Acknowledge(r)) == Unread(r) - 1
  {
    ModIs(r.head, r.nr, 0, r.head);
    NextMod(|r.delivered|, r.nr);
    var a := Acknowledge(r);
    assert r.posted[..|r.delivered|] == r.delivered;
    assert r.posted[..|r.delivered| + 1] == a.delivered;
    forall i | |a.delivered| <= i < |a.posted|
      ensures Slot(a, i) == a.posted[i]
    {
      assert Slot(r, i) == r.posted[i];
    }
  }

  // ------------------------------------------------------------- page layout

  // sizes in bytes: page, struct aio_ring and struct io_event; the event size
  // divides the page size
  datatype Layout = Layout(page: nat, header: nat, event: nat) {
    ghost predicate Valid() {
      event > 0 && 0 < header <= page && page % event == 0
    }

    // AIO_EVENTS_PER_PAGE, AIO_EVENTS_FIRST_PAGE and AIO_EVENTS_OFFSET
    function PerPage(): nat requires event > 0 { page / event }

    function FirstPage(): int requires event > 0 { (page - header) / event }

    function Offset(): int requires event > 0 { PerPage() - FirstPage() }

    // aio_setup_ring: the pages for max_reqs + 2 events, and the events they hold
    function Pages(maxReqs: nat): nat
      requires page > 0
    {
      (header + event * (maxReqs + 2) + page - 1) / page
    }

    function Events(pages: nat): int requires event > 0 { (page * pages - header) / event }

    // aio_ring_event: the page holding event i, and its byte offset there
    function PageOf(i: int): int requires PerPageOk() { (i + Offset()) / PerPage() }

    function OffsetOf(i: int): int requires PerPageOk() { (i + Offset()) % PerPage() * event }

    ghost predicate PerPageOk() { event > 0 && PerPage() > 0 }
  }

  // taking the header off a whole number of events
  lemma LessHeader(l: Layout, m: nat)
    requires l.event > 0
    ensures (l.event * m - l.header) / l.event == m - (l.header + l.event - 1) / l.event
  {
    var h := (l.header + l.event - 1) / l.event;
    var rest := (l.header + l.event - 1) % l.event;
    assert l.header + l.event - 1 == l.event * h + rest;
    assert l.event * (m - h) == l.event * m - l.event * h;
    DivIs(l.event * m - l.header, l.event, m - h, l.event - 1 - rest);
  }

  lemma Whole(l: Layout)
    requires l.Valid()
    ensures l.page == l.event * l.PerPage() && l.PerPage() > 0
  {
  }

  // the first slot past the header, counted in events from the start of the ring
  lemma OffsetIs(l: Layout)
    requires l.Valid()
    ensures l.Offset() == (l.header + l.event - 1) / l.event
    ensures l.header <= l.event * l.Offset()
  {
    Whole(l);
    LessHeader(l, l.PerPage());
  }

  lemma EventsIs(l: Layout, pages: nat)
    requires l.Valid()
    ensures l.Events(pages) == l.PerPage() * pages - l.Offset()
  {
    Whole(l);
    OffsetIs(l);
    Associate(l.event, l.PerPage(), pages);
    LessHeader(l, l.PerPage() * pages);
  }

  // The ring has room for the requested events and two more; event i lies in one
  // of its pages, in whole events, past the header and inside the page.
  lemma SlotInside(l: Layout, pages: nat, i: nat)
    requires l.Valid() && i < l.Events(pages)
    ensures l.PerPageOk() && 0 <= l.PageOf(i) < pages
    ensures 0 <= l.OffsetOf(i) && l.OffsetOf(i) + l.event <= l.page
    ensures l.PageOf(i) == 0 ==> l.header <= l.OffsetOf(i)
  {
    Whole(l);
    OffsetIs(l);
    EventsIs(l, pages);
    var c, pos := l.PerPage(), i + l.Offset();
    var p, k := pos / c, pos % c;
    assert pos == c * p + k;
    Within(c, p, k, pages);
    Scaled(l.event, k, c);
    if p == 0 { Scaled(l.event, l.Offset() - 1, k); }
  }

  lemma Within(c: nat, p: int, k: nat, pages: nat)
    requires c > 0 && k < c && 0 <= c * p + k < c * pages
    ensures 0 <= p < pages
  {
    MulBounds(c, p);
    MulBounds(c, pages - p);
    if p >= pages {
      Grows(c, pages, p);
    }
  }

  lemma SlotsDistinct(l: Layout, i: nat, j: nat)
    requires l.Valid() && l.PerPageOk() && l.PageOf(i) == l.PageOf(j) && l.OffsetOf(i) == l.OffsetOf(j)
    ensures i == j
  {
    var c := l.PerPage();
    var k, m := (i + l.Offset()) % c, (j + l.Offset()) % c;
    assert l.event * (k - m) == 0;
    MulBounds(l.event, k - m);
    assert i + l.Offset() == c * l.PageOf(i) + k;
    assert j + l.Offset() == c * l.PageOf(j) + m;
  }

  lemma RoomForAll(l: Layout, maxReqs: nat)
    requires l.Valid()
    ensures l.Events(l.Pages(maxReqs)) >= maxReqs + 2
  {
    Whole(l);
    var n := l.Pages(maxReqs);
    var size := l.header + l.event * (maxReqs + 2);
    assert l.page * n + (size + l.page - 1) % l.page == size + l.page - 1;
    assert l.event * (maxReqs + 2) <= l.page * n - l.header;
    var x := l.page * n - l.header;
    assert x == l.event * (x / l.event) + x % l.event;
    if x / l.event < maxReqs + 2 {
      Scaled(l.event, x / l.event, maxReqs + 2);
    }
  }
}
