// The scatterlist cursor of crypto/scatterwalk.c and scatterwalk.h, over one flat
// byte memory in which page p starts at address p * PAGE_SIZE.
module Scatterwalk {
  import opened Arithmetic
  import opened Basics

  // a struct scatterlist: length bytes from offset in page, running on into the
  // pages that follow
  datatype Segment = Segment(page: nat, offset: nat, length: nat)

  ghost predicate OffsetsInPage(sgs: seq<Segment>) {
    forall i | 0 <= i < |sgs| :: sgs[i].offset < PAGE_SIZE
  }

  ghost function Range(a: nat, n: nat): (r: seq<nat>)
    ensures |r| == n
  {
    seq(n, i requires 0 <= i => a + i)
  }

  lemma RangeDrop(a: nat, n: nat, k: nat, rest: seq<nat>)
    requires k <= n
    ensures (Range(a, n) + rest)[k..] == Range(a + k, n - k) + rest && Range(a + k, 0) + rest == rest
  {
  }

  // the addresses of all bytes from segment i on, in order
  ghost function Addresses(sgs: seq<Segment>, i: nat): seq<nat>
    requires i <= |sgs|
    decreases |sgs| - i
  {
    if i == |sgs| then []
    else Range(sgs[i].page * PAGE_SIZE + sgs[i].offset, sgs[i].length) + Addresses(sgs, i + 1)
  }

  lemma NoneAhead(sgs: seq<Segment>)
    ensures Addresses(sgs, |sgs|) == []
  {
  }

  ghost function Flat(sgs: seq<Segment>): seq<nat> {
    Addresses(sgs, 0)
  }

  ghost predicate Distinct(a: seq<nat>) {
    forall i, j | 0 <= i < j < |a| :: a[i] != a[j]
  }

  ghost predicate Within(a: seq<nat>, size: nat) {
    forall i | 0 <= i < |a| :: a[i] < size
  }

  // the bytes at a list of addresses
  ghost function Gather(m: Bytes, a: seq<nat>): (r: Bytes)
    requires Within(a, |m|)
    ensures |r| == |a|
  {
    seq(|a|, i requires 0 <= i < |a| => m[a[i]])
  }

  // now is was with the bytes of data at the addresses of a, and no other change
  ghost predicate Stored(was: Bytes, now: Bytes, a: seq<nat>, data: Bytes)
    requires |a| == |data| && Within(a, |was|)
  {
    && |now| == |was|
    && (forall i | 0 <= i < |a| :: now[a[i]] == data[i])
    && (forall x | 0 <= x < |was| && x !in a :: now[x] == was[x])
  }

  // ------------------------------------------------- what is left of a page

  // length bytes from offset of a page, cut at its end
  function InPage(offset: nat, length: nat): nat {
    var room := PAGE_SIZE - offset % PAGE_SIZE;
    if length <= room then length else room
  }

  lemma AtPageStart(length: nat)
    ensures InPage(0, length) == if length <= PAGE_SIZE then length else PAGE_SIZE
  {
  }

  // a place in a list: the segment, the offset in the page, the bytes left of the segment
  datatype Cursor = Cursor(sg: nat, offset: nat, left: nat)

  // what is left of the page m bytes on, after a page or segment used up has been left
  ghost function LeftFrom(sgs: seq<Segment>, c: Cursor, m: nat): nat
    decreases |sgs| - c.sg
  {
    if m < c.left then InPage(c.offset + m, c.left - m)
    else if c.sg + 1 >= |sgs| then 0
    else
      var next := sgs[c.sg + 1];
      if m == c.left then InPage(next.offset, next.length)
      else LeftFrom(sgs, Cursor(c.sg + 1, next.offset, next.length), m - c.left)
  }

  // a walk over the list finds this much of the page ahead of it at byte n
  ghost function LeftAt(sgs: seq<Segment>, n: nat): nat
    requires |sgs| > 0
  {
    if n == 0 then InPage(sgs[0].offset, sgs[0].length) else LeftFrom(sgs, First(sgs), n)
  }

  ghost function First(sgs: seq<Segment>): Cursor
    requires |sgs| > 0
  {
    Cursor(0, sgs[0].offset, sgs[0].length)
  }

  // d is k bytes on from c
  ghost predicate Moved(sgs: seq<Segment>, c: Cursor, d: Cursor, k: nat) {
    forall m: nat | m > 0 :: LeftFrom(sgs, d, m) == LeftFrom(sgs, c, k + m)
  }

  // the same, with the last page or segment not yet left
  ghost predicate Passed(sgs: seq<Segment>, c: Cursor, d: Cursor, k: nat) {
    forall m: nat :: LeftFrom(sgs, d, m) == LeftFrom(sgs, c, k + m)
  }

  lemma MovedOn(sgs: seq<Segment>, c: Cursor, d: Cursor, e: Cursor, j: nat, k: nat)
    requires Moved(sgs, c, d, j) && Moved(sgs, d, e, k)
    ensures Moved(sgs, c, e, j + k)
  {
    hide LeftFrom;
    forall m: nat | m > 0
      ensures LeftFrom(sgs, e, m) == LeftFrom(sgs, c, j + k + m)
    {
      assert LeftFrom(sgs, d, k + m) == LeftFrom(sgs, c, j + (k + m));
    }
  }

  lemma PassedOn(sgs: seq<Segment>, c: Cursor, d: Cursor, e: Cursor, j: nat, k: nat)
    requires Moved(sgs, c, d, j) && Passed(sgs, d, e, k) && k > 0
    ensures Passed(sgs, c, e, j + k)
  {
    hide LeftFrom;
    forall m: nat
      ensures LeftFrom(sgs, e, m) == LeftFrom(sgs, c, j + k + m)
    {
      assert LeftFrom(sgs, d, k + m) == LeftFrom(sgs, c, j + (k + m));
    }
  }

  lemma Settles(sgs: seq<Segment>, c: Cursor, d: Cursor, e: Cursor, k: nat)
    requires Passed(sgs, c, d, k) && Moved(sgs, d, e, 0)
    ensures Moved(sgs, c, e, k) && LeftFrom(sgs, d, 0) == LeftFrom(sgs, c, k)
  {
    hide LeftFrom;
    forall m: nat | m > 0
      ensures LeftFrom(sgs, e, m) == LeftFrom(sgs, c, k + m)
    {
      assert LeftFrom(sgs, e, m) == LeftFrom(sgs, d, 0 + m);
    }
    assert LeftFrom(sgs, d, 0) == LeftFrom(sgs, c, k + 0);
  }

  lemma Stays(sgs: seq<Segment>, c: Cursor)
    ensures Moved(sgs, c, c, 0)
  {
  }

  lemma StepInPage(sgs: seq<Segment>, c: Cursor, k: nat)
    requires k <= c.left
    ensures Passed(sgs, c, Cursor(c.sg, c.offset + k, c.left - k), k)
  {
    hide InPage;
    var d := Cursor(c.sg, c.offset + k, c.left - k);
    forall m: nat
      ensures LeftFrom(sgs, d, m) == LeftFrom(sgs, c, k + m)
    {
      assert c.offset + (k + m) == c.offset + k + m && c.left - (k + m) == c.left - k - m && k + m - c.left == m - (c.left - k);
    }
  }

  // over the end of a page, k bytes away, inside a segment
  lemma StepOverPage(sgs: seq<Segment>, c: Cursor, k: nat)
    requires k < c.left && c.offset + k == PAGE_SIZE
    ensures Moved(sgs, c, Cursor(c.sg, 0, c.left - k), k) && LeftFrom(sgs, c, k) == InPage(0, c.left - k)
  {
    var d := Cursor(c.sg, 0, c.left - k);
    forall m: nat
      ensures LeftFrom(sgs, d, m) == LeftFrom(sgs, c, k + m)
    {
      AddBlock(m, PAGE_SIZE);
      assert c.offset + (k + m) == m + PAGE_SIZE && c.left - (k + m) == c.left - k - m && k + m - c.left == m - (c.left - k);
    }
    assert LeftFrom(sgs, d, 0) == LeftFrom(sgs, c, k + 0);
  }

  lemma StepOverSegment(sgs: seq<Segment>, c: Cursor)
    requires c.sg + 1 < |sgs|
    ensures var next := sgs[c.sg + 1];
      Moved(sgs, c, Cursor(c.sg + 1, next.offset, next.length), c.left) && LeftFrom(sgs, c, c.left) == InPage(next.offset, next.length)
  {
    hide InPage;
  }

  // struct scatter_walk
  class ScatterWalk {
    const sgs: seq<Segment>
    var sg: nat
    var page: nat
    var offset: nat
    var len_this_page: nat
    var len_this_segment: nat
    var data: nat

    ghost predicate Valid()
      reads this
    {
      && OffsetsInPage(sgs) && sg < |sgs|
      && offset + len_this_page <= PAGE_SIZE && len_this_page <= len_this_segment
      && (len_this_page < len_this_segment ==> offset + len_this_page == PAGE_SIZE)
    }

    // the cursor has moved on from a page it has used up
    ghost predicate Settled()
      reads this
    {
      len_this_page == 0 ==> len_this_segment == 0
    }

    function Here(): nat
      reads this
    {
      page * PAGE_SIZE + offset
    }

    // the addresses still ahead of the cursor
    ghost function Rest(): seq<nat>
      requires Valid()
      reads this
    {
      Range(Here(), len_this_segment) + Addresses(sgs, sg + 1)
    }

    ghost function Place(): Cursor
      reads this
    {
      Cursor(sg, offset, len_this_segment)
    }

    constructor (list: seq<Segment>)
      requires OffsetsInPage(list) && |list| > 0
      ensures Valid() && Settled() && sgs == list && Rest() == Flat(list)
      ensures Place() == First(list) && len_this_page == LeftAt(list, 0)
    {
      sgs := list;
      new;
      Start(0);
    }

    // scatterwalk_start
    method Start(i: nat)
      requires OffsetsInPage(sgs) && i < |sgs|
      modifies this
      ensures Valid() && Settled() && sg == i && Rest() == Addresses(sgs, i)
      ensures Place() == Cursor(i, sgs[i].offset, sgs[i].length) && len_this_page == InPage(sgs[i].offset, sgs[i].length)
    {
      sg := i;
      page := sgs[i].page;
      len_this_segment := sgs[i].length;
      len_this_page := InPage(sgs[i].offset, sgs[i].length);
      offset := sgs[i].offset;
    }

    // scatterwalk_map
    method Map()
      requires Valid()
      modifies this`data
      ensures data == Here() && Valid() && Settled() == old(Settled()) && Rest() == old(Rest()) && Place() == old(Place())
    {
      data := page * PAGE_SIZE + offset;
    }

    // scatterwalk_whichbuf: whether the next nbytes can be used where they are
    predicate Whole(nbytes: nat)
      reads this
    {
      nbytes <= len_this_page && data % PAGE_SIZE + nbytes <= PAGE_SIZE
    }

    // scatterwalk_pagedone: past the rest of this page
    method PageDone(more: bool)
      requires Valid() && (more ==> len_this_page < |Rest()|)
      modifies this
      ensures more ==> Valid() && Settled() && Rest() == old(Rest())[old(len_this_page)..]
      ensures more ==> sg > old(sg) || (sg == old(sg) && len_this_segment == old(len_this_segment - len_this_page) > 0)
      ensures more ==> Moved(sgs, old(Place()), Place(), old(len_this_page))
      ensures more ==> len_this_page == LeftFrom(sgs, old(Place()), old(len_this_page))
    {
      hide Moved; hide LeftFrom; hide InPage; hide Range; hide Addresses;
      RangeDrop(Here(), len_this_segment, len_this_page, Addresses(sgs, sg + 1));
      NoneAhead(sgs);
      if more {
        if len_this_page < len_this_segment { StepOverPage(sgs, Place(), len_this_page); }
        else if sg + 1 < |sgs| { StepOverSegment(sgs, Place()); }
        len_this_segment := len_this_segment - len_this_page;
        if len_this_segment != 0 {
          page := page + 1;
          len_this_page := if len_this_segment <= PAGE_SIZE then len_this_segment else PAGE_SIZE;
          AtPageStart(len_this_segment);
          offset := 0;
        } else {
          Start(sg + 1);
        }
      }
    }

    // scatterwalk_done: leave the page when it is used up
    method Done(more: bool)
      requires Valid() && (more ==> |Rest()| > 0)
      modifies this
      ensures more ==> Valid() && Settled() && Rest() == old(Rest())
      ensures more ==> Moved(sgs, old(Place()), Place(), 0) && len_this_page == LeftFrom(sgs, old(Place()), 0)
    {
      hide Moved;
      Stays(sgs, Place());
      if len_this_page == 0 || !more {
        PageDone(more);
      }
    }

    // the end of scatterwalk_copychunks: nbytes of this page are used
    method Advance(nbytes: nat)
      requires Valid() && nbytes <= len_this_page
      modifies this
      ensures Valid() && Rest() == old(Rest())[nbytes..] && Passed(sgs, old(Place()), Place(), nbytes)
    {
      hide Passed; hide Range; hide Addresses;
      StepInPage(sgs, Place(), nbytes);
      RangeDrop(Here(), len_this_segment, nbytes, Addresses(sgs, sg + 1));
      offset := offset + nbytes;
      len_this_page := len_this_page - nbytes;
      len_this_segment := len_this_segment - nbytes;
    }

    // ahead is a list of addresses and the cursor is at index done of it: the next n
    // addresses, all in this page, are consecutive
    lemma PageAhead(ahead: seq<nat>, done: nat, n: nat, nbytes: nat, size: nat)
      requires Valid() && n <= len_this_page && done + n <= nbytes <= |ahead|
      requires Rest() == ahead[done..] && Within(ahead[..nbytes], size)
      ensures forall i | done <= i < done + n :: ahead[i] == Here() + (i - done)
      ensures n > 0 ==> Here() + n <= size
    {
      forall i | done <= i < done + n
        ensures ahead[i] == Here() + (i - done)
      {
        assert ahead[i] == Rest()[i - done];
      }
      if n > 0 {
        assert ahead[..nbytes][done + n - 1] < size;
      }
    }

    // the rest of this page goes to the buffer, and the walk to the next page
    method LoadPage(buf: array<Byte>, mem: array<Byte>, done: nat, nbytes: nat, ghost ahead: seq<nat>)
      requires Valid() && Settled() && data == Here() && done + len_this_page < nbytes <= |ahead| && Rest() == ahead[done..]
      requires Within(ahead[..nbytes], mem.Length) && buf != mem && nbytes <= buf.Length
      requires buf[..done] == Gather(mem[..], ahead[..nbytes])[..done]
      modifies this, buf
      ensures Valid() && Settled() && data == Here() && Rest() == ahead[done + old(len_this_page)..]
      ensures sg > old(sg) || (sg == old(sg) && len_this_segment < old(len_this_segment))
      ensures buf[..done + old(len_this_page)] == Gather(mem[..], ahead[..nbytes])[..done + old(len_this_page)]
    {
      hide Addresses; hide Range; hide Rest; hide Within; hide Gather;
      PageAhead(ahead, done, len_this_page, nbytes, mem.Length);
      LoadRun(buf, done, mem, data, len_this_page, ahead[..nbytes]);
      PageDone(true);
      Map();
    }

    // scatterwalk_copychunks from the list into a scratch buffer
    method CopyIn(buf: array<Byte>, mem: array<Byte>, nbytes: nat)
      requires Valid() && Settled() && data == Here() && nbytes <= |Rest()| && nbytes <= buf.Length
      requires Within(Rest()[..nbytes], mem.Length) && buf != mem
      modifies this, buf
      ensures Valid() && Rest() == old(Rest())[nbytes..]
      ensures buf[..nbytes] == Gather(mem[..], old(Rest())[..nbytes])
    {
      hide Addresses; hide Range; hide Rest; hide Within; hide Gather;
      ghost var ahead := Rest();
      var done := 0;
      while nbytes - done > len_this_page
        invariant Valid() && Settled() && data == Here() && 0 <= done <= nbytes && Rest() == ahead[done..]
        invariant buf[..done] == Gather(mem[..], ahead[..nbytes])[..done]
        decreases |sgs| - sg, len_this_segment
      {
        var len := len_this_page;
        LoadPage(buf, mem, done, nbytes, ahead);
        done := done + len;
      }
      PageAhead(ahead, done, nbytes - done, nbytes, mem.Length);
      LoadRun(buf, done, mem, data, nbytes - done, ahead[..nbytes]);
      Advance(nbytes - done);
    }

    method StorePage(buf: array<Byte>, mem: array<Byte>, done: nat, nbytes: nat, ghost ahead: seq<nat>, ghost was: Bytes)
      requires Valid() && Settled() && data == Here() && done + len_this_page < nbytes <= |ahead| && Rest() == ahead[done..]
      requires Within(ahead[..nbytes], mem.Length) && Distinct(ahead[..nbytes]) && buf != mem && nbytes <= buf.Length
      requires |was| == mem.Length && Within(ahead[..done], |was|) && Stored(was, mem[..], ahead[..done], buf[..done])
      modifies this, mem
      ensures Valid() && Settled() && data == Here() && Rest() == ahead[done + old(len_this_page)..]
      ensures sg > old(sg) || (sg == old(sg) && len_this_segment < old(len_this_segment))
      ensures var next := done + old(len_this_page);
        Within(ahead[..next], |was|) && Stored(was, mem[..], ahead[..next], buf[..next])
      ensures Moved(sgs, old(Place()), Place(), old(len_this_page))
    {
      hide Moved;
      hide Addresses; hide Range; hide Rest; hide Stored; hide Distinct; hide Within;
      PageAhead(ahead, done, len_this_page, nbytes, mem.Length);
      Prefixes(ahead, done, done + len_this_page, nbytes);
      StoreRun(mem, data, buf, done, len_this_page, was, ahead[..nbytes]);
      PageDone(true);
      Map();
    }

    // scatterwalk_copychunks from a scratch buffer into the list
    method CopyOut(buf: array<Byte>, mem: array<Byte>, nbytes: nat)
      requires Valid() && Settled() && data == Here() && nbytes <= |Rest()| && nbytes <= buf.Length
      requires Within(Rest()[..nbytes], mem.Length) && Distinct(Rest()[..nbytes]) && buf != mem
      modifies this, mem
      ensures Valid() && Rest() == old(Rest())[nbytes..]
      ensures Stored(old(mem[..]), mem[..], old(Rest())[..nbytes], buf[..nbytes])
      ensures nbytes > 0 ==> Passed(sgs, old(Place()), Place(), nbytes)
    {
      hide Addresses; hide Range; hide Rest; hide Stored; hide Distinct; hide Within; hide Moved; hide Passed;
      ghost var ahead, was, start := Rest(), mem[..], Place();
      StoredNone(was, ahead[..0], buf[..0]);
      Stays(sgs, start);
      var done := 0;
      while nbytes - done > len_this_page
        invariant Valid() && Settled() && data == Here() && 0 <= done <= nbytes && Rest() == ahead[done..]
        invariant Within(ahead[..done], |was|) && Stored(was, mem[..], ahead[..done], buf[..done])
        invariant Moved(sgs, start, Place(), done) && (done == nbytes ==> nbytes == 0)
        decreases |sgs| - sg, len_this_segment
      {
        var len := len_this_page;
        ghost var place := Place();
        StorePage(buf, mem, done, nbytes, ahead, was);
        MovedOn(sgs, start, place, Place(), done, len);
        done := done + len;
      }
      ghost var place := Place();
      PageAhead(ahead, done, nbytes - done, nbytes, mem.Length);
      Prefixes(ahead, done, nbytes, nbytes);
      StoreRun(mem, data, buf, done, nbytes - done, was, ahead[..nbytes]);
      Advance(nbytes - done);
      if nbytes > 0 { PassedOn(sgs, start, place, Place(), done, nbytes - done); }
    }
  }

  lemma Prefixes(a: seq<nat>, i: nat, j: nat, n: nat)
    requires i <= j <= n <= |a|
    ensures a[..n][..i] == a[..i] && a[..n][..j] == a[..j]
  {
  }

  // the next n bytes of buf come from consecutive addresses
  method LoadRun(buf: array<Byte>, done: nat, mem: array<Byte>, at: nat, n: nat, ghost a: seq<nat>)
    requires buf != mem && done + n <= |a| <= buf.Length && (n > 0 ==> at + n <= mem.Length)
    requires Within(a, mem.Length) && forall i | done <= i < done + n :: a[i] == at + (i - done)
    requires buf[..done] == Gather(mem[..], a)[..done]
    modifies buf
    ensures buf[..done + n] == Gather(mem[..], a)[..done + n]
  {
    CopyBytes(buf, done, mem, at, n);
    ghost var g := Gather(mem[..], a);
    assert forall i | 0 <= i < done :: buf[i] == old(buf[..done])[i] == g[..done][i];
  }

  // the next n bytes of buf go to consecutive addresses
  method StoreRun(mem: array<Byte>, at: nat, buf: array<Byte>, done: nat, n: nat, ghost was: Bytes, ghost a: seq<nat>)
    requires buf != mem && done + n <= |a| <= buf.Length && |was| == mem.Length && (n > 0 ==> at + n <= mem.Length)
    requires Within(a, |was|) && Distinct(a) && forall i | done <= i < done + n :: a[i] == at + (i - done)
    requires Within(a[..done], |was|) && Stored(was, mem[..], a[..done], buf[..done])
    modifies mem
    ensures Within(a[..done + n], |was|) && Stored(was, mem[..], a[..done + n], buf[..done + n])
  {
    hide Stored;
    ghost var mid, b := mem[..], buf[..];
    CopyBytes(mem, at, buf, done, n);
    assert b[..done] == buf[..done] && b[..done + n] == buf[..done + n];
    StoredMore(was, mid, mem[..], a, b, at, done, n);
  }

  lemma StoredNone(m: Bytes, a: seq<nat>, data: Bytes)
    requires a == [] && data == []
    ensures Within(a, |m|) && Stored(m, m, a, data)
  {
  }

  // one more run of consecutive addresses is stored
  lemma StoredMore(was: Bytes, mid: Bytes, now: Bytes, a: seq<nat>, buf: Bytes, at: nat, done: nat, n: nat)
    requires done + n <= |a| <= |buf| && Within(a, |was|) && Distinct(a) && |was| == |mid| == |now|
    requires Within(a[..done], |was|) && Within(a[..done + n], |was|)
    requires Stored(was, mid, a[..done], buf[..done])
    requires forall i | done <= i < done + n :: a[i] == at + (i - done)
    requires forall x | 0 <= x < |now| :: now[x] == if at <= x < at + n then buf[done + x - at] else mid[x]
    ensures Stored(was, now, a[..done + n], buf[..done + n])
  {
    forall i | 0 <= i < done + n
      ensures now[a[i]] == buf[i]
    {
      assert at <= a[i] < at + n ==> a[done + (a[i] - at)] == a[i];
      if i < done { assert mid[a[..done][i]] == buf[..done][i]; }
    }
    forall x | 0 <= x < |was| && x !in a[..done + n]
      ensures now[x] == was[x]
    {
      InRun(a, at, done, n, x);
      assert forall i | 0 <= i < done :: a[..done][i] == a[i];
    }
  }

  lemma InRun(a: seq<nat>, at: nat, done: nat, n: nat, x: nat)
    requires done + n <= |a| && forall i | done <= i < done + n :: a[i] == at + (i - done)
    ensures at <= x < at + n ==> x in a[..done + n]
  {
    if at <= x < at + n { assert a[..done + n][done + (x - at)] == x; }
  }

  // memcpy between different buffers
  method CopyBytes(to: array<Byte>, at: nat, from: array<Byte>, start: nat, n: nat)
    requires to != from && (n > 0 ==> at + n <= to.Length && start + n <= from.Length)
    modifies to
    ensures forall i | 0 <= i < to.Length :: to[i] == if at <= i < at + n then from[start + i - at] else old(to[i])
  {
    for k := 0 to n
      invariant forall i | 0 <= i < to.Length :: to[i] == if at <= i < at + k then from[start + i - at] else old(to[i])
    {
      to[at + k] := from[start + k];
    }
  }
}
