// crypt, ecb_process and cbc_process of crypto/cipher.c: block modes run over
// scatterlists, in place where a block lies in one page and through scratch
// blocks where it does not.
module CipherDriver {
  import opened Arithmetic
  import opened Basics
  import opened Scatterwalk
  import BM = BlockModes

  // a block buffer: bytes of the mapped memory, or a scratch block
  datatype Ptr = Mapped(at: nat) | Scratch

  ghost predicate InBounds(p: Ptr, tmp: array<Byte>, mem: array<Byte>, n: nat) {
    tmp.Length == n && (p.Mapped? ==> p.at + n <= mem.Length)
  }

  function Load(p: Ptr, tmp: array<Byte>, mem: array<Byte>, n: nat): (r: Bytes)
    requires InBounds(p, tmp, mem, n)
    reads tmp, mem
    ensures |r| == n
  {
    if p.Scratch? then tmp[..] else mem[p.at..p.at + n]
  }

  // the destination p holds data and nothing else has changed
  twostate predicate Wrote(p: Ptr, tmp: array<Byte>, mem: array<Byte>, n: nat, data: Bytes)
    requires InBounds(p, tmp, mem, n)
    reads tmp, mem
  {
    && Load(p, tmp, mem, n) == data
    && (p.Mapped? ==> tmp[..] == old(tmp[..]))
    && (forall x | 0 <= x < mem.Length && !(p.Mapped? && p.at <= x < p.at + n) :: mem[x] == old(mem[x]))
  }

  method Store(p: Ptr, tmp: array<Byte>, mem: array<Byte>, n: nat, data: Bytes)
    requires InBounds(p, tmp, mem, n) && |data| == n && tmp != mem
    modifies tmp, mem
    ensures Wrote(p, tmp, mem, n, data)
  {
    if p.Scratch? {
      for k := 0 to n
        invariant tmp[..k] == data[..k] && mem[..] == old(mem[..])
      {
        tmp[k] := data[k];
      }
      assert tmp[..] == data;
    } else {
      for k := 0 to n
        invariant tmp[..] == old(tmp[..])
        invariant forall x | 0 <= x < mem.Length ::
          mem[x] == if p.at <= x < p.at + k then data[x - p.at] else old(mem[x])
      {
        mem[p.at + k] := data[k];
      }
    }
  }

  method SetIv(iv: array<Byte>, data: Bytes)
    requires |data| == iv.Length
    modifies iv
    ensures iv[..] == data
  {
    for k := 0 to iv.Length
      invariant iv[..k] == data[..k]
    {
      iv[k] := data[k];
    }
  }

  // cbc_process with a NULL initial value: the null encryption
  predicate Idle(mode: BM.Mode, iv: array?<Byte>) {
    mode != BM.Ecb && iv == null
  }

  // the chaining value; ecb_process gets NULL and uses none
  ghost function IvOf(iv: array?<Byte>, n: nat): (r: Bytes)
    requires iv != null ==> iv.Length == n
    reads iv
    ensures |r| == n
  {
    if iv == null then Zeros(n) else iv[..]
  }

  // ecb_process and cbc_process.  Decryption that is not in place writes the
  // destination before it saves the source block as the next chaining value.
  method Process(mode: BM.Mode, fn: BM.BlockFn, src: Ptr, tmpSrc: array<Byte>, dst: Ptr, tmpDst: array<Byte>,
                 mem: array<Byte>, iv: array?<Byte>, n: nat, inPlace: bool)
    requires BM.OnBlocks(fn, n) && (iv != null ==> iv.Length == n)
    requires InBounds(src, tmpSrc, mem, n) && InBounds(dst, tmpDst, mem, n)
    requires tmpSrc != tmpDst && tmpSrc != mem && tmpDst != mem && iv != tmpSrc && iv != tmpDst && iv != mem
    requires inPlace <==> src.Mapped? && dst == src
    requires src.Mapped? && dst.Mapped? && !inPlace ==> src.at + n <= dst.at || dst.at + n <= src.at
    modifies tmpDst, mem, iv
    ensures Idle(mode, iv) ==> mem[..] == old(mem[..]) && tmpDst[..] == old(tmpDst[..])
    ensures !Idle(mode, iv) ==> Wrote(dst, tmpDst, mem, n, BM.StepOut(mode, fn, old(IvOf(iv, n)), old(Load(src, tmpSrc, mem, n))))
    ensures !Idle(mode, iv) ==> IvOf(iv, n) == BM.StepIv(mode, fn, old(IvOf(iv, n)), old(Load(src, tmpSrc, mem, n)))
  {
    ghost var x := Load(src, tmpSrc, mem, n);
    if mode == BM.Ecb {
      Store(dst, tmpDst, mem, n, fn(Load(src, tmpSrc, mem, n)));
      return;
    }
    if iv == null {
      return;
    }
    if mode == BM.CbcEncrypt {
      SetIv(iv, BM.Xor(iv[..], Load(src, tmpSrc, mem, n)));
      Store(dst, tmpDst, mem, n, fn(iv[..]));
      SetIv(iv, Load(dst, tmpDst, mem, n));
    } else if inPlace {
      var stack := BM.Xor(fn(Load(src, tmpSrc, mem, n)), iv[..]);
      SetIv(iv, Load(src, tmpSrc, mem, n));
      Store(dst, tmpDst, mem, n, stack);
    } else {
      Store(dst, tmpDst, mem, n, fn(Load(src, tmpSrc, mem, n)));
      Store(dst, tmpDst, mem, n, BM.Xor(Load(dst, tmpDst, mem, n), iv[..]));
      assert Load(src, tmpSrc, mem, n) == x;
      SetIv(iv, Load(src, tmpSrc, mem, n));
    }
  }

  // the same, with what it does to the run of addresses a of a destination in place
  method Produce(mode: BM.Mode, fn: BM.BlockFn, src: Ptr, tmpSrc: array<Byte>, dst: Ptr, tmpDst: array<Byte>,
                 mem: array<Byte>, iv: array?<Byte>, n: nat, inPlace: bool, ghost a: seq<nat>) returns (ghost data: Bytes)
    requires BM.OnBlocks(fn, n) && (iv != null ==> iv.Length == n)
    requires InBounds(src, tmpSrc, mem, n) && InBounds(dst, tmpDst, mem, n)
    requires tmpSrc != tmpDst && tmpSrc != mem && tmpDst != mem && iv != tmpSrc && iv != tmpDst && iv != mem
    requires inPlace <==> src.Mapped? && dst == src
    requires src.Mapped? && dst.Mapped? && !inPlace ==> src.at + n <= dst.at || dst.at + n <= src.at
    requires |a| == n && Within(a, mem.Length) && (dst.Mapped? ==> forall i | 0 <= i < n :: a[i] == dst.at + i)
    modifies tmpDst, mem, iv
    ensures |data| == n
    ensures dst.Mapped? ==> Stored(old(mem[..]), mem[..], a, data)
    ensures dst.Scratch? ==> mem[..] == old(mem[..]) && tmpDst[..] == data
    ensures Idle(mode, iv) ==> mem[..] == old(mem[..]) && tmpDst[..] == old(tmpDst[..])
    ensures Idle(mode, iv) ==> data == if dst.Mapped? then Gather(old(mem[..]), a) else old(tmpDst[..])
    ensures !Idle(mode, iv) ==> data == BM.StepOut(mode, fn, old(IvOf(iv, n)), old(Load(src, tmpSrc, mem, n)))
    ensures !Idle(mode, iv) ==> IvOf(iv, n) == BM.StepIv(mode, fn, old(IvOf(iv, n)), old(Load(src, tmpSrc, mem, n)))
  {
    hide BM.StepOut; hide BM.StepIv; hide Stored; hide IvOf;
    ghost var was := mem[..];
    Process(mode, fn, src, tmpSrc, dst, tmpDst, mem, iv, n, inPlace);
    data := Load(dst, tmpDst, mem, n);
    if dst.Mapped? {
      RunStored(was, mem[..], a, dst.at, data);
      GatherStored(was, mem[..], a, data);
    }
  }

  // the two lists name the same bytes in the same order, or have none in common
  ghost predicate SameOrDisjoint(a: seq<nat>, b: seq<nat>) {
    a == b || forall i, j | 0 <= i < |a| && 0 <= j < |b| :: a[i] != b[j]
  }

  // where the next block of a walk is worked on
  method WhichBuf(w: ScatterWalk, n: nat) returns (p: Ptr)
    ensures p == if w.Whole(n) then Mapped(w.data) else Scratch
  {
    p := if w.Whole(n) then Mapped(w.data) else Scratch;
  }

  // a block used in place is the run of addresses ahead of the cursor
  lemma InPlaceBlock(w: ScatterWalk, n: nat, mem: array<Byte>)
    requires w.Valid() && w.data == w.Here() && w.Whole(n) && n > 0 && n <= |w.Rest()| && Within(w.Rest()[..n], mem.Length)
    ensures w.data + n <= mem.Length && w.offset < PAGE_SIZE
    ensures forall i | 0 <= i < n :: w.Rest()[..n][i] == w.data + i
    ensures mem[w.data..w.data + n] == Gather(mem[..], w.Rest()[..n])
  {
    hide Addresses; hide Range; hide ScatterWalk.Rest;
    w.PageAhead(w.Rest(), 0, n, n, mem.Length);
  }

  // blocks used in place have one place exactly when scatterwalk_samebuf says so
  lemma SameBuf(v: ScatterWalk, w: ScatterWalk, n: nat, size: nat)
    requires v.Valid() && w.Valid() && v.data == v.Here() && w.data == w.Here() && n > 0
    requires v.Whole(n) && w.Whole(n) && n <= |v.Rest()| && n <= |w.Rest()|
    requires Within(v.Rest()[..n], size) && Within(w.Rest()[..n], size) && SameOrDisjoint(v.Rest()[..n], w.Rest()[..n])
    ensures v.page == w.page && v.offset == w.offset <==> v.data == w.data
    ensures v.data == w.data || v.data + n <= w.data || w.data + n <= v.data
  {
    hide Addresses; hide Range; hide ScatterWalk.Rest;
    v.PageAhead(v.Rest(), 0, n, n, size);
    w.PageAhead(w.Rest(), 0, n, n, size);
    var a, b := v.Rest()[..n], w.Rest()[..n];
    assert a[0] == v.data && b[0] == w.data;
    Overlap(a, v.data, b, w.data);
    Overlap(b, w.data, a, v.data);
  }

  lemma Overlap(a: seq<nat>, x: nat, b: seq<nat>, y: nat)
    requires |a| == |b| && (forall i | 0 <= i < |a| :: a[i] == x + i) && (forall i | 0 <= i < |b| :: b[i] == y + i)
    ensures x <= y < x + |a| ==> exists i, j :: 0 <= i < |a| && 0 <= j < |b| && a[i] == b[j]
  {
    if x <= y < x + |a| { assert a[y - x] == b[0]; }
  }

  lemma RunStored(was: Bytes, now: Bytes, a: seq<nat>, at: nat, data: Bytes)
    requires |a| == |data| && |was| == |now| && at + |data| <= |was|
    requires forall i | 0 <= i < |a| :: a[i] == at + i
    requires now[at..at + |data|] == data
    requires forall x | 0 <= x < |was| && !(at <= x < at + |data|) :: now[x] == was[x]
    ensures Within(a, |was|) && Stored(was, now, a, data)
  {
    forall i | 0 <= i < |a|
      ensures now[a[i]] == data[i]
    {
      assert now[at..at + |data|][i] == data[i];
    }
    forall x | 0 <= x < |was| && x !in a
      ensures now[x] == was[x]
    {
      Listed(a, at, x);
    }
  }

  lemma Listed(a: seq<nat>, at: nat, x: nat)
    requires forall i | 0 <= i < |a| :: a[i] == at + i
    ensures at <= x < at + |a| ==> x in a
  {
    if at <= x < at + |a| { assert a[x - at] == x; }
  }

  // the source side of a block: afterwards src holds the next n bytes of the walk
  method Fetch(w: ScatterWalk, src: Ptr, tmp: array<Byte>, mem: array<Byte>, n: nat)
    requires w.Valid() && w.Settled() && w.data == w.Here() && 0 < n <= |w.Rest()| && tmp.Length == n && tmp != mem
    requires Within(w.Rest()[..n], mem.Length) && src == if w.Whole(n) then Mapped(w.data) else Scratch
    modifies w, tmp
    ensures w.Valid() && w.Rest() == old(w.Rest())[n..]
    ensures InBounds(src, tmp, mem, n) && Load(src, tmp, mem, n) == Gather(mem[..], old(w.Rest())[..n])
  {
    hide Addresses; hide Range; hide ScatterWalk.Rest;
    if src.Scratch? {
      w.CopyIn(tmp, mem, n);
      assert tmp[..n] == tmp[..];
    } else {
      InPlaceBlock(w, n, mem);
      w.Advance(n);
    }
  }

  // the destination side: afterwards the next n bytes of the walk are data
  method Flush(w: ScatterWalk, dst: Ptr, tmp: array<Byte>, mem: array<Byte>, n: nat, ghost was: Bytes, ghost data: Bytes)
    requires w.Valid() && w.Settled() && w.data == w.Here() && 0 < n <= |w.Rest()| && tmp.Length == n && tmp != mem
    requires |was| == mem.Length && |data| == n
    requires Within(w.Rest()[..n], mem.Length) && Distinct(w.Rest()[..n])
    requires dst == if w.Whole(n) then Mapped(w.data) else Scratch
    requires dst.Mapped? ==> Stored(was, mem[..], w.Rest()[..n], data)
    requires dst.Scratch? ==> mem[..] == was && tmp[..] == data
    modifies w, mem
    ensures w.Valid() && w.Rest() == old(w.Rest())[n..]
    ensures Stored(was, mem[..], old(w.Rest())[..n], data) && (dst.Mapped? ==> mem[..] == old(mem[..]))
    ensures Passed(w.sgs, old(w.Place()), w.Place(), n)
  {
    hide Addresses; hide Range; hide ScatterWalk.Rest; hide Stored; hide Passed;
    if dst.Scratch? {
      assert tmp[..n] == tmp[..];
      w.CopyOut(tmp, mem, n);
    } else {
      w.Advance(n);
    }
  }

  // both walks mapped, and where the next block of each is worked on
  method Choose(win: ScatterWalk, wout: ScatterWalk, mem: array<Byte>, n: nat) returns (src: Ptr, dst: Ptr, inPlace: bool)
    requires n > 0 && win != wout && win.Valid() && wout.Valid() && n <= |win.Rest()| && n <= |wout.Rest()|
    requires Within(win.Rest()[..n], mem.Length) && Within(wout.Rest()[..n], mem.Length)
    requires SameOrDisjoint(win.Rest()[..n], wout.Rest()[..n])
    modifies win`data, wout`data
    ensures win.Valid() && win.Settled() == old(win.Settled()) && win.data == win.Here() && win.Rest() == old(win.Rest())
    ensures wout.Valid() && wout.Settled() == old(wout.Settled()) && wout.data == wout.Here() && wout.Rest() == old(wout.Rest())
    ensures src == (if win.Whole(n) then Mapped(win.data) else Scratch) && dst == if wout.Whole(n) then Mapped(wout.data) else Scratch
    ensures dst.Mapped? ==> dst.at + n <= mem.Length && forall i | 0 <= i < n :: wout.Rest()[..n][i] == dst.at + i
    ensures inPlace <==> src.Mapped? && dst == src
    ensures src.Mapped? && dst.Mapped? && !inPlace ==> src.at + n <= dst.at || dst.at + n <= src.at
    ensures dst.Mapped? <==> n <= wout.len_this_page
    ensures wout.Place() == old(wout.Place())
  {
    hide Addresses; hide Range; hide ScatterWalk.Rest; hide Within; hide SameOrDisjoint; hide ScatterWalk.Valid; hide ScatterWalk.Whole;
    hide Gather;
    win.Map();
    wout.Map();
    WholeInPage(wout, n);
    src := WhichBuf(win, n);
    dst := WhichBuf(wout, n);
    inPlace := win.page == wout.page && win.offset == wout.offset && src == Mapped(win.data) && dst == Mapped(wout.data);
    if dst.Mapped? { InPlaceBlock(wout, n, mem); }
    if src.Mapped? && dst.Mapped? { SameBuf(win, wout, n, mem.Length); }
  }

  lemma WholeInPage(w: ScatterWalk, n: nat)
    requires w.Valid() && w.data == w.Here() && n > 0
    ensures w.Whole(n) <==> n <= w.len_this_page
  {
    if n <= w.len_this_page { ModIs(w.data, PAGE_SIZE, w.page, w.offset); }
  }

  // One turn of the loop in crypt; more tells that further blocks follow.  With no
  // initial value a block whose bytes are all ahead in this page stays as it was, and
  // any other gets what the scratch block held.
  method OneBlock(mode: BM.Mode, fn: BM.BlockFn, mem: array<Byte>, win: ScatterWalk, wout: ScatterWalk,
                  tmpSrc: array<Byte>, tmpDst: array<Byte>, iv: array?<Byte>, n: nat, more: bool) returns (ghost data: Bytes)
    requires BM.OnBlocks(fn, n) && tmpSrc.Length == tmpDst.Length == n && (iv != null ==> iv.Length == n)
    requires tmpSrc != tmpDst && tmpSrc != mem && tmpDst != mem && iv != tmpSrc && iv != tmpDst && iv != mem && win != wout
    requires win.Valid() && wout.Valid() && win.Settled() && wout.Settled()
    requires n <= |win.Rest()| && n <= |wout.Rest()| && (more ==> n < |win.Rest()| && n < |wout.Rest()|)
    requires Within(win.Rest()[..n], mem.Length) && Within(wout.Rest()[..n], mem.Length) && Distinct(wout.Rest()[..n])
    requires SameOrDisjoint(win.Rest()[..n], wout.Rest()[..n])
    modifies mem, win, wout, tmpSrc, tmpDst, iv
    ensures more ==> win.Valid() && win.Settled() && win.Rest() == old(win.Rest())[n..]
    ensures more ==> wout.Valid() && wout.Settled() && wout.Rest() == old(wout.Rest())[n..]
    ensures |data| == n && Stored(old(mem[..]), mem[..], old(wout.Rest())[..n], data)
    ensures !Idle(mode, iv) ==>
      var x := Gather(old(mem[..]), old(win.Rest())[..n]);
      data == BM.StepOut(mode, fn, old(IvOf(iv, n)), x) && IvOf(iv, n) == BM.StepIv(mode, fn, old(IvOf(iv, n)), x)
    ensures Idle(mode, iv) ==> tmpDst[..] == old(tmpDst[..])
    ensures Idle(mode, iv) ==>
      data == if n <= old(wout.len_this_page) then Gather(old(mem[..]), old(wout.Rest())[..n]) else old(tmpDst[..])
    ensures Idle(mode, iv) ==> (mem[..] == old(mem[..]) <==>
      n <= old(wout.len_this_page) || old(tmpDst[..]) == Gather(old(mem[..]), old(wout.Rest())[..n]))
    ensures more ==> Moved(wout.sgs, old(wout.Place()), wout.Place(), n)
    ensures more ==> wout.len_this_page == LeftFrom(wout.sgs, old(wout.Place()), n)
  {
    hide Addresses; hide Range; hide ScatterWalk.Rest; hide BM.StepOut; hide BM.StepIv; hide Stored; hide Gather; hide IvOf;
    hide Within; hide Distinct; hide SameOrDisjoint; hide ScatterWalk.Valid; hide ScatterWalk.Settled; hide ScatterWalk.Whole;
    hide Idle; hide Moved; hide Passed; hide LeftFrom;
    ghost var was, a, place := mem[..], wout.Rest()[..n], wout.Place();
    var src, dst, inPlace := Choose(win, wout, mem, n);
    Fetch(win, src, tmpSrc, mem, n);
    data := Produce(mode, fn, src, tmpSrc, dst, tmpDst, mem, iv, n, inPlace, a);
    win.Done(more);
    Flush(wout, dst, tmpDst, mem, n, was, data);
    StoredSame(was, mem[..], a, data);
    ghost var flushed := wout.Place();
    wout.Done(more);
    if more { Settles(wout.sgs, place, flushed, wout.Place(), n); }
  }

  // storing changes nothing exactly when the bytes are there already
  lemma StoredSame(was: Bytes, now: Bytes, a: seq<nat>, data: Bytes)
    requires |a| == |data| && Within(a, |was|) && Stored(was, now, a, data)
    ensures now == was <==> data == Gather(was, a)
  {
    if data == Gather(was, a) {
      forall x | 0 <= x < |was|
        ensures now[x] == was[x]
      {
        if x in a { Index(a, x, data, was, now); }
      }
    }
  }

  lemma Index(a: seq<nat>, x: nat, data: Bytes, was: Bytes, now: Bytes)
    requires x in a && |a| == |data| && Within(a, |was|) && Stored(was, now, a, data) && data == Gather(was, a)
    ensures x < |was| == |now| && now[x] == was[x]
  {
    var i :| 0 <= i < |a| && a[i] == x;
    assert now[a[i]] == data[i];
  }

  // ------------------------------------------------------------------ crypt

  lemma Slices(a: seq<nat>, i: nat, j: nat, size: nat)
    requires i <= j <= |a|
    ensures Within(a, size) ==> Within(a[i..j], size)
    ensures Distinct(a) ==> Distinct(a[i..j])
  {
  }

  lemma SlicesApart(s: seq<nat>, d: seq<nat>, i: nat, j: nat)
    requires i <= j <= |s| == |d| && SameOrDisjoint(s, d)
    ensures SameOrDisjoint(s[i..j], d[i..j])
  {
  }

  // the blocks already written are none of the bytes still to be read
  lemma ReadsOriginal(was: Bytes, now: Bytes, s: seq<nat>, d: seq<nat>, i: nat, j: nat, out: Bytes)
    requires i <= j <= |s| == |d| && |out| == i && SameOrDisjoint(s, d) && Distinct(d)
    requires Within(s, |was|) && Within(d[..i], |was|) && Within(s[i..j], |was|) && Stored(was, now, d[..i], out)
    ensures Gather(now, s[i..j]) == Gather(was, s)[i..j]
  {
    forall k | i <= k < j
      ensures now[s[k]] == was[s[k]]
    {
      assert s[k] !in d[..i] by {
        if s == d { assert forall m | 0 <= m < i :: d[m] != d[k]; }
      }
    }
  }

  lemma StoredAppend(was: Bytes, mid: Bytes, now: Bytes, a: seq<nat>, i: nat, j: nat, x: Bytes, y: Bytes)
    requires i <= j <= |a| && |x| == i && |y| == j - i && Within(a, |was|) && Distinct(a) && |mid| == |was|
    requires Within(a[..i], |was|) && Within(a[i..j], |was|) && Within(a[..j], |was|)
    requires Stored(was, mid, a[..i], x) && Stored(mid, now, a[i..j], y)
    ensures Stored(was, now, a[..j], x + y)
  {
    forall k | 0 <= k < j
      ensures now[a[..j][k]] == (x + y)[k]
    {
      if k < i {
        assert a[..i][k] == a[k];
        assert a[k] !in a[i..j];
      } else {
        assert a[i..j][k - i] == a[k];
      }
    }
    forall z | 0 <= z < |was| && z !in a[..j]
      ensures now[z] == was[z]
    {
      assert z !in a[..i] && z !in a[i..j] by {
        assert forall k | 0 <= k < i :: a[..i][k] == a[..j][k];
        assert forall k | 0 <= k < j - i :: a[i..j][k] == a[..j][i + k];
      }
    }
  }

  // every byte of the lists is in memory, no byte is written twice, and the source
  // is the destination or apart from it
  ghost predicate Usable(src: seq<Segment>, dst: seq<Segment>, nbytes: nat, size: nat) {
    && OffsetsInPage(src) && OffsetsInPage(dst) && nbytes <= |Flat(src)| && nbytes <= |Flat(dst)|
    && Within(Flat(src)[..nbytes], size) && Within(Flat(dst)[..nbytes], size) && Distinct(Flat(dst)[..nbytes])
    && SameOrDisjoint(Flat(src)[..nbytes], Flat(dst)[..nbytes])
  }

  // done bytes have been processed: what is in memory and in the chaining value
  ghost predicate SoFar(mode: BM.Mode, fn: BM.BlockFn, was: Bytes, now: Bytes, iv0: Bytes, iv: Bytes, s: seq<nat>, d: seq<nat>, done: nat)
    requires done <= |s| == |d| && Within(s, |was|) && Within(d, |was|) && BM.OnBlocks(fn, |iv0|)
  {
    && done % |iv0| == 0
    && var r := BM.Run(mode, fn, iv0, Gather(was, s)[..done]);
       Within(d[..done], |was|) && Stored(was, now, d[..done], r.0) && iv == r.1
  }

  lemma NextBlock(mode: BM.Mode, fn: BM.BlockFn, was: Bytes, mid: Bytes, now: Bytes, iv0: Bytes, v: Bytes, iv: Bytes,
                  s: seq<nat>, d: seq<nat>, done: nat)
    requires BM.OnBlocks(fn, |iv0|) && done + |iv0| <= |s| == |d| && Within(s, |was|) && Within(d, |was|) && Distinct(d)
    requires SameOrDisjoint(s, d) && |mid| == |was| && |v| == |iv0|
    requires SoFar(mode, fn, was, mid, iv0, v, s, d, done)
    requires
      var j := done + |iv0|;
      && Within(s[done..j], |mid|) && Within(d[done..j], |mid|)
      && Stored(mid, now, d[done..j], BM.StepOut(mode, fn, v, Gather(mid, s[done..j])))
      && iv == BM.StepIv(mode, fn, v, Gather(mid, s[done..j]))
    ensures SoFar(mode, fn, was, now, iv0, iv, s, d, done + |iv0|)
  {
    hide BM.StepOut; hide BM.StepIv; hide BM.Run; hide Stored; hide Within; hide Distinct; hide SameOrDisjoint; hide Gather;
    var j, text := done + |iv0|, Gather(was, s);
    var r := BM.Run(mode, fn, iv0, text[..done]);
    ReadsOriginal(was, mid, s, d, done, j, r.0);
    var block := text[done..j];
    assert Gather(mid, s[done..j]) == block;
    BM.RunSnoc(mode, fn, iv0, text[..done], block);
    assert text[..done] + block == text[..j];
    Slices(d, 0, j, |was|);
    assert d[0..j] == d[..j];
    StoredAppend(was, mid, now, d, done, j, r.0, BM.StepOut(mode, fn, v, block));
  }

  lemma Nothing(mode: BM.Mode, fn: BM.BlockFn, was: Bytes, iv0: Bytes, s: seq<nat>, d: seq<nat>)
    requires |s| == |d| && Within(s, |was|) && Within(d, |was|) && BM.OnBlocks(fn, |iv0|)
    ensures SoFar(mode, fn, was, was, iv0, iv0, s, d, 0)
  {
    BM.RunNothing(mode, fn, iv0);
    StoredNone(was, d[..0], []);
  }

  // what the next turn of the loop needs of the lists
  lemma BlockAhead(s: seq<nat>, d: seq<nat>, total: nat, done: nat, b: nat, size: nat)
    requires done + b <= total <= |s| && total <= |d|
    requires Within(s[..total], size) && Within(d[..total], size) && Distinct(d[..total]) && SameOrDisjoint(s[..total], d[..total])
    ensures s[done..][..b] == s[..total][done..done + b] && d[done..][..b] == d[..total][done..done + b]
    ensures Within(s[done..][..b], size) && Within(d[done..][..b], size) && Distinct(d[done..][..b])
    ensures SameOrDisjoint(s[done..][..b], d[done..][..b])
  {
    hide Within; hide Distinct; hide SameOrDisjoint;
    assert s[done..][..b] == s[..total][done..done + b] && d[done..][..b] == d[..total][done..done + b];
    Slices(s[..total], done, done + b, size);
    Slices(d[..total], done, done + b, size);
    SlicesApart(s[..total], d[..total], done, done + b);
  }

  // ------------------------------------------------ without an initial value

  // CBC with a NULL initial value: block after block is left alone where the walk has
  // all of it ahead in one page, and overwritten with the scratch block where not
  ghost function IdleText(dst: seq<Segment>, text: Bytes, scratch: Bytes): (r: Bytes)
    requires |dst| > 0 && |scratch| > 0 && |text| % |scratch| == 0
    ensures |r| == |text|
    decreases |text|
  {
    if text == [] then []
    else
      LastBlock(|text|, |scratch|);
      var n := |text| - |scratch|;
      IdleText(dst, text[..n], scratch) + IdleBlock(dst, text[n..], scratch, n)
  }

  ghost function IdleBlock(dst: seq<Segment>, block: Bytes, scratch: Bytes, n: nat): Bytes
    requires |dst| > 0
  {
    if |scratch| <= LeftAt(dst, n) then block else scratch
  }

  lemma IdleSnoc(dst: seq<Segment>, text: Bytes, block: Bytes, scratch: Bytes)
    requires |dst| > 0 && |scratch| > 0 && |text| % |scratch| == 0 && |block| == |scratch|
    ensures |text + block| % |scratch| == 0
    ensures IdleText(dst, text + block, scratch) == IdleText(dst, text, scratch) + IdleBlock(dst, block, scratch, |text|)
  {
    hide IdleBlock;
    AddBlock(|text|, |scratch|);
    assert (text + block)[..|text|] == text && (text + block)[|text|..] == block;
  }

  // the block at byte n survives
  ghost predicate Kept(dst: seq<Segment>, text: Bytes, scratch: Bytes, n: nat)
    requires |dst| > 0 && n + |scratch| <= |text|
  {
    |scratch| <= LeftAt(dst, n) || text[n..n + |scratch|] == scratch
  }

  ghost predicate AllKept(dst: seq<Segment>, text: Bytes, scratch: Bytes)
    requires |dst| > 0 && |scratch| > 0
  {
    forall n | 0 <= n && n % |scratch| == 0 && n + |scratch| <= |text| :: Kept(dst, text, scratch, n)
  }

  // nothing is changed if and only if every block has its bytes ahead in one page or
  // holds what the scratch block holds
  lemma {:induction false} IdleSame(dst: seq<Segment>, text: Bytes, scratch: Bytes)
    requires |dst| > 0 && |scratch| > 0 && |text| % |scratch| == 0
    ensures IdleText(dst, text, scratch) == text <==> AllKept(dst, text, scratch)
    decreases |text|
  {
    var b := |scratch|;
    if text != [] {
      LastBlock(|text|, b);
      var k := |text| - b;
      var front, block := text[..k], text[k..];
      IdleSame(dst, front, scratch);
      IdleSnoc(dst, front, block, scratch);
      assert text == front + block;
      LastOrEarlier(dst, text, scratch, k);
      hide IdleText; hide AllKept;
      var r := IdleText(dst, front, scratch);
      assert r + IdleBlock(dst, block, scratch, k) == text <==> r == front && IdleBlock(dst, block, scratch, k) == block by {
        assert (r + IdleBlock(dst, block, scratch, k))[..k] == r && text[..k] == front;
        assert (r + IdleBlock(dst, block, scratch, k))[k..] == IdleBlock(dst, block, scratch, k);
      }
    }
  }

  lemma LastOrEarlier(dst: seq<Segment>, text: Bytes, scratch: Bytes, k: nat)
    requires |dst| > 0 && |scratch| > 0 && k + |scratch| == |text| && k % |scratch| == 0
    ensures AllKept(dst, text, scratch) <==> Kept(dst, text, scratch, k) && AllKept(dst, text[..k], scratch)
  {
    var b := |scratch|;
    hide LeftAt;
    if AllKept(dst, text, scratch) {
      forall n | 0 <= n && n % b == 0 && n + b <= k
        ensures Kept(dst, text[..k], scratch, n)
      {
        assert Kept(dst, text, scratch, n) && text[..k][n..n + b] == text[n..n + b];
      }
    }
    if Kept(dst, text, scratch, k) && AllKept(dst, text[..k], scratch) {
      forall n | 0 <= n && n % b == 0 && n + b <= |text|
        ensures Kept(dst, text, scratch, n)
      {
        if n < k {
          Remainder(k, n, b);
          LastBlock(k - n, b);
          assert Kept(dst, text[..k], scratch, n) && text[..k][n..n + b] == text[n..n + b];
        }
      }
    }
  }

  // two bytes, one at the end of a page and one at the start of the next, of zeros
  lemma ScratchShows()
    ensures var dst := [Segment(0, PAGE_SIZE - 1, 2)];
      LeftAt(dst, 0) == 1 && IdleText(dst, [0, 0], [1, 1]) == [1, 1]
  {
    var dst := [Segment(0, PAGE_SIZE - 1, 2)];
    IdleSnoc(dst, [], [0, 0], [1, 1]);
    assert [] + [0, 0] == [0, 0];
  }

  ghost predicate IdleSoFar(dst: seq<Segment>, was: Bytes, now: Bytes, scratch: Bytes, d: seq<nat>, done: nat)
    requires |dst| > 0 && |scratch| > 0 && done <= |d| && Within(d, |was|)
  {
    && done % |scratch| == 0 && Within(d[..done], |was|)
    && Stored(was, now, d[..done], IdleText(dst, Gather(was, d)[..done], scratch))
  }

  lemma NextIdle(dst: seq<Segment>, was: Bytes, mid: Bytes, now: Bytes, scratch: Bytes, d: seq<nat>, done: nat, data: Bytes)
    requires |dst| > 0 && |scratch| > 0 && done + |scratch| <= |d| && Within(d, |was|) && Distinct(d) && |mid| == |was|
    requires IdleSoFar(dst, was, mid, scratch, d, done)
    requires
      var j := done + |scratch|;
      && Within(d[done..j], |mid|) && |data| == |scratch| && Stored(mid, now, d[done..j], data)
      && data == if |scratch| <= LeftAt(dst, done) then Gather(mid, d[done..j]) else scratch
    ensures IdleSoFar(dst, was, now, scratch, d, done + |scratch|)
  {
    hide IdleText; hide Stored; hide Within; hide Distinct; hide SameOrDisjoint; hide Gather; hide LeftAt;
    var j, text := done + |scratch|, Gather(was, d);
    var out := IdleText(dst, text[..done], scratch);
    SameList(d);
    ReadsOriginal(was, mid, d, d, done, j, out);
    var block := text[done..j];
    IdleSnoc(dst, text[..done], block, scratch);
    assert text[..done] + block == text[..j];
    Slices(d, 0, j, |was|);
    assert d[0..j] == d[..j];
    StoredAppend(was, mid, now, d, done, j, out, data);
  }

  lemma SameList(d: seq<nat>)
    ensures SameOrDisjoint(d, d)
  {
  }

  lemma NothingIdle(dst: seq<Segment>, was: Bytes, scratch: Bytes, d: seq<nat>)
    requires |dst| > 0 && |scratch| > 0 && Within(d, |was|)
    ensures IdleSoFar(dst, was, was, scratch, d, 0)
  {
    StoredNone(was, d[..0], []);
  }

  lemma FinishedIdle(dst: seq<Segment>, was: Bytes, now: Bytes, scratch: Bytes, d: seq<nat>)
    requires |dst| > 0 && |scratch| > 0 && Within(d, |was|) && IdleSoFar(dst, was, now, scratch, d, |d|)
    ensures |d| % |scratch| == 0 && Stored(was, now, d, IdleText(dst, Gather(was, d), scratch))
    ensures now == was <==> AllKept(dst, Gather(was, d), scratch)
  {
    hide IdleText; hide Stored; hide Gather; hide Within; hide AllKept;
    assert Gather(was, d)[..|d|] == Gather(was, d) && d[..|d|] == d;
    StoredSame(was, now, d, IdleText(dst, Gather(was, d), scratch));
    IdleSame(dst, Gather(was, d), scratch);
  }

  // where the walk over the destination is after done bytes
  ghost predicate OnTheWay(dst: seq<Segment>, c: Cursor, left: nat, done: nat)
    requires |dst| > 0
  {
    Moved(dst, First(dst), c, done) && left == LeftAt(dst, done)
  }

  lemma StartsOut(dst: seq<Segment>)
    requires |dst| > 0
    ensures OnTheWay(dst, First(dst), LeftAt(dst, 0), 0)
  {
    Stays(dst, First(dst));
  }

  lemma GoesOn(dst: seq<Segment>, c: Cursor, d: Cursor, left: nat, done: nat, n: nat)
    requires |dst| > 0 && n > 0 && Moved(dst, c, d, n) && Moved(dst, First(dst), c, done) && left == LeftFrom(dst, c, n)
    ensures OnTheWay(dst, d, left, done + n)
  {
    MovedOn(dst, First(dst), c, d, done, n);
    hide LeftFrom;
    assert LeftFrom(dst, c, n) == LeftFrom(dst, First(dst), done + n);
  }

  // crypt: the destination gets the mode of operation applied to the flat source, no
  // other byte changes, and the chaining value is left for the next call.  Scratch is
  // what the stack held where tmp_dst lies.
  method Crypt(mode: BM.Mode, fn: BM.BlockFn, mem: array<Byte>, dst: seq<Segment>, src: seq<Segment>, nbytes: nat,
               iv: array?<Byte>, bsize: nat) returns (ret: int, badLength: bool, ghost scratch: Bytes)
    requires BM.OnBlocks(fn, bsize) && (iv != null ==> iv.Length == bsize) && iv != mem
    requires nbytes > 0 && nbytes % bsize == 0 ==> Usable(src, dst, nbytes, mem.Length)
    modifies mem, iv
    ensures badLength == (nbytes % bsize != 0) && ret == (if badLength then -EINVAL else 0)
    ensures badLength ==> mem[..] == old(mem[..]) && IvOf(iv, bsize) == old(IvOf(iv, bsize))
    ensures !badLength && !Idle(mode, iv) ==>
      var r := BM.Run(mode, fn, old(IvOf(iv, bsize)), Gather(old(mem[..]), Flat(src)[..nbytes]));
      Stored(old(mem[..]), mem[..], Flat(dst)[..nbytes], r.0) && IvOf(iv, bsize) == r.1
    ensures nbytes == 0 ==> mem[..] == old(mem[..])
    ensures !badLength && Idle(mode, iv) && nbytes > 0 ==>
      |dst| > 0 && |scratch| == bsize
      && var text := Gather(old(mem[..]), Flat(dst)[..nbytes]);
         && Stored(old(mem[..]), mem[..], Flat(dst)[..nbytes], IdleText(dst, text, scratch))
         && (mem[..] == old(mem[..]) <==> AllKept(dst, text, scratch))
  {
    hide Addresses; hide Range; hide ScatterWalk.Rest; hide BM.StepOut; hide BM.StepIv; hide BM.Run; hide Stored; hide Gather;
    hide Within; hide Distinct; hide SameOrDisjoint; hide ScatterWalk.Valid; hide ScatterWalk.Settled; hide SoFar; hide Flat;
    hide IvOf; hide Idle; hide ScatterWalk.Whole; hide IdleText; hide IdleSoFar; hide Moved; hide LeftAt; hide LeftFrom; hide AllKept;
    ghost var was, iv0 := mem[..], IvOf(iv, bsize);
    if nbytes == 0 {
      ZeroBytes(mode, fn, mem[..], iv0, Flat(src)[..0], Flat(dst)[..0]);
      return 0, false, [];
    }
    if nbytes % bsize != 0 {
      return -EINVAL, true, [];
    }
    ghost var s, d := Flat(src)[..nbytes], Flat(dst)[..nbytes];
    Nonempty(src, nbytes);
    Nonempty(dst, nbytes);
    var tmpSrc, tmpDst := new Byte[bsize], new Byte[bsize];
    scratch := tmpDst[..];
    var win := new ScatterWalk(src);
    var wout := new ScatterWalk(dst);
    Nothing(mode, fn, was, iv0, s, d);
    NothingIdle(dst, was, scratch, d);
    StartsOut(dst);
    var left := nbytes;
    ghost var done := 0;
    while left > 0
      invariant 0 <= left && done + left == nbytes && left % bsize == 0 && 0 <= done
      invariant left > 0 ==> win.Valid() && win.Settled() && win.Rest() == Flat(src)[done..]
      invariant left > 0 ==> wout.Valid() && wout.Settled() && wout.Rest() == Flat(dst)[done..]
      invariant left > 0 ==> OnTheWay(dst, wout.Place(), wout.len_this_page, done)
      invariant !Idle(mode, iv) ==> SoFar(mode, fn, was, mem[..], iv0, IvOf(iv, bsize), s, d, done)
      invariant Idle(mode, iv) ==> tmpDst[..] == scratch && IdleSoFar(dst, was, mem[..], scratch, d, done)
      invariant fresh(win) && fresh(wout) && fresh(tmpSrc) && fresh(tmpDst) && tmpSrc != tmpDst && win != wout
      invariant tmpSrc.Length == tmpDst.Length == bsize && wout.sgs == dst
    {
      LastBlock(left, bsize);
      BlockAhead(Flat(src), Flat(dst), nbytes, done, bsize, mem.Length);
      ghost var mid, v, place := mem[..], IvOf(iv, bsize), wout.Place();
      left := left - bsize;
      ghost var data := OneBlock(mode, fn, mem, win, wout, tmpSrc, tmpDst, iv, bsize, left > 0);
      if left > 0 { GoesOn(dst, place, wout.Place(), wout.len_this_page, done, bsize); }
      if Idle(mode, iv) {
        NextIdle(dst, was, mid, mem[..], scratch, d, done, data);
      } else {
        NextBlock(mode, fn, was, mid, mem[..], iv0, v, IvOf(iv, bsize), s, d, done);
      }
      done := done + bsize;
    }
    if Idle(mode, iv) { FinishedIdle(dst, was, mem[..], scratch, d); }
    else { Finished(mode, fn, was, mem[..], iv0, IvOf(iv, bsize), s, d); }
    return 0, false, scratch;
  }

  lemma Nonempty(sgs: seq<Segment>, n: nat)
    requires 0 < n <= |Flat(sgs)|
    ensures |sgs| > 0
  {
  }

  lemma ZeroBytes(mode: BM.Mode, fn: BM.BlockFn, m: Bytes, iv0: Bytes, s: seq<nat>, d: seq<nat>)
    requires BM.OnBlocks(fn, |iv0|) && s == [] && d == []
    ensures 0 % |iv0| == 0 && Within(s, |m|) && Within(d, |m|) && Gather(m, s) == []
    ensures BM.Run(mode, fn, iv0, []) == ([], iv0) && Stored(m, m, d, [])
  {
    BM.RunNothing(mode, fn, iv0);
  }

  lemma Finished(mode: BM.Mode, fn: BM.BlockFn, was: Bytes, now: Bytes, iv0: Bytes, iv: Bytes, s: seq<nat>, d: seq<nat>)
    requires |s| == |d| && Within(s, |was|) && Within(d, |was|) && BM.OnBlocks(fn, |iv0|)
    requires SoFar(mode, fn, was, now, iv0, iv, s, d, |s|)
    ensures |s| % |iv0| == 0
    ensures var r := BM.Run(mode, fn, iv0, Gather(was, s)); Stored(was, now, d, r.0) && iv == r.1
  {
    hide BM.Run; hide Stored; hide Gather; hide Within;
    assert Gather(was, s)[..|s|] == Gather(was, s) && d[..|s|] == d;
  }

  lemma GatherStored(was: Bytes, now: Bytes, a: seq<nat>, data: Bytes)
    requires |a| == |data| && Within(a, |was|) && Stored(was, now, a, data)
    ensures Within(a, |now|) && Gather(now, a) == data
  {
  }

  // Encrypt the bytes at s to the bytes at d; later the same ciphertext, at s2 in
  // some memory, is decrypted to d2: the plaintext is back, whatever the layouts.
  lemma CbcAcrossLayouts(enc: BM.BlockFn, dec: BM.BlockFn, iv: Bytes, m0: Bytes, s: seq<nat>, m1: Bytes, d: seq<nat>,
                         m2: Bytes, s2: seq<nat>, m3: Bytes, d2: seq<nat>)
    requires BM.Inverts(dec, enc, |iv|) && |s| % |iv| == 0 && |s| == |d| == |s2| == |d2|
    requires Within(s, |m0|) && Within(d, |m0|) && Within(d, |m1|) && Within(s2, |m2|) && Within(d2, |m2|) && Within(d2, |m3|)
    requires Stored(m0, m1, d, BM.Run(BM.CbcEncrypt, enc, iv, Gather(m0, s)).0)
    requires Gather(m2, s2) == Gather(m1, d)
    requires Stored(m2, m3, d2, BM.Run(BM.CbcDecrypt, dec, iv, Gather(m2, s2)).0)
    ensures Gather(m3, d2) == Gather(m0, s)
  {
    hide BM.Run; hide Stored; hide Gather; hide Within;
    var c := BM.Run(BM.CbcEncrypt, enc, iv, Gather(m0, s));
    GatherStored(m0, m1, d, c.0);
    BM.CbcRoundTrip(enc, dec, iv, Gather(m0, s));
    GatherStored(m2, m3, d2, Gather(m0, s));
  }
}
