// The layout and writing passes of elf_core_dump, fs/binfmt_elf.c.
module ElfCore {
  import opened Arithmetic
  import opened Basics

  const ELF_EXEC_PAGESIZE := 4096
  const NOTE_HEADER := 12
  const PT_LOAD := 1
  const PT_NOTE := 4

  function RoundUp(x: nat, y: nat): nat
    requires y > 0
  {
    (x + (y - 1)) / y * y
  }

  lemma RoundUpIs(x: nat, y: nat)
    requires y > 0
    ensures x <= RoundUp(x, y) < x + y && RoundUp(x, y) % y == 0
  {
    var q, r := (x + (y - 1)) / y, (x + (y - 1)) % y;
    assert x + (y - 1) == y * q + r;
    assert q * y == y * q;
    ModIs(q * y, y, q, 0);
  }

  // ---------------------------------------------------------------- the file

  // content is what the file holds.  View continues it with zeros up to the position,
  // as a later write would: the bytes of Hole are not in the file.
  class File {
    var content: Bytes
    var pos: nat

    ghost predicate Valid()
      reads this
    {
      |content| <= pos
    }

    ghost function View(): (v: Bytes)
      requires Valid()
      reads this
      ensures |v| == pos && content <= v
    {
      content + Zeros(pos - |content|)
    }

    // bytes between the end of the file and the position
    ghost function Hole(): nat
      requires Valid()
      reads this
    {
      pos - |content|
    }

    lemma HoleIs()
      requires Valid()
      ensures |content| == pos - Hole()
    {
    }

    constructor ()
      ensures Valid() && View() == [] && Hole() == 0
    {
      content, pos := [], 0;
    }

    // dump_write: all of it, or a failure that may have written a part.  Writing fills
    // the hole before it, unless nothing is written.
    method Write(data: Bytes) returns (ok: bool)
      requires Valid()
      modifies this
      ensures Valid() && (ok ==> View() == old(View()) + data && Hole() == if data == [] then old(Hole()) else 0)
    {
      var written :| 0 <= written <= |data|;
      if written > 0 {
        content := content + Zeros(pos - |content|) + data[..written];
        pos := pos + written;
      }
      ok := written == |data|;
      if ok { assert data[..written] == data; }
    }

    // dump_seek, forward
    method Seek(off: nat) returns (ok: bool)
      requires Valid() && off >= pos
      modifies this
      ensures Valid() && (ok ==> View() == old(View()) + Zeros(off - old(pos)) && Hole() == old(Hole()) + off - old(pos))
    {
      ok := *;
      if ok {
        pos := off;
      }
    }
  }

  // ------------------------------------------------------------------- notes

  datatype Note = Note(name: Bytes, typ: int, data: Bytes)

  // notesize; the name is stored with its terminator
  function NoteSize(n: Note): nat {
    NOTE_HEADER + RoundUp(|n.name| + 1, 4) + RoundUp(|n.data|, 4)
  }

  // the encodings of struct elf_note, struct elfhdr and struct elf_phdr
  datatype Phdr = Phdr(typ: int, offset: nat, vaddr: nat, filesz: nat, memsz: nat, read: bool, write: bool, exec: bool)

  datatype Format = Format(elf: Bytes, note: (nat, nat, int) -> Bytes, phdr: Phdr -> Bytes, phdrSize: nat) {
    ghost predicate Valid() {
      && |elf| % 4 == 0 && phdrSize % 4 == 0 && |elf| > 0 && phdrSize > 0
      && (forall a: nat, b: nat, t: int {:trigger note(a, b, t)} :: |note(a, b, t)| == NOTE_HEADER)
      && (forall p: Phdr {:trigger phdr(p)} :: |phdr(p)| == phdrSize)
    }
  }

  // a note in the file: header, name and data, each filled to four bytes
  ghost function NoteImage(f: Format, n: Note): Bytes {
    RoundUpIs(|n.name| + 1, 4);
    RoundUpIs(|n.data|, 4);
    f.note(|n.name| + 1, |n.data|, n.typ)
    + (n.name + [0]) + Zeros(RoundUp(|n.name| + 1, 4) - (|n.name| + 1))
    + n.data + Zeros(RoundUp(|n.data|, 4) - |n.data|)
  }

  // how much of the image is left as a hole at its end
  function NoteHole(n: Note): nat {
    RoundUpIs(|n.name| + 1, 4);
    RoundUpIs(|n.data|, 4);
    if n.data == [] then RoundUp(|n.name| + 1, 4) - (|n.name| + 1) else RoundUp(|n.data|, 4) - |n.data|
  }

  // a hole of h bytes, and then the notes
  function NotesHole(ns: seq<Note>, h: nat): nat {
    if ns == [] then h else NoteHole(ns[|ns| - 1])
  }

  lemma NoteImageSize(f: Format, n: Note)
    requires f.Valid()
    ensures |NoteImage(f, n)| == NoteSize(n) && NoteSize(n) % 4 == 0
  {
    hide RoundUp;
    RoundUpIs(|n.name| + 1, 4);
    RoundUpIs(|n.data|, 4);
  }

  // a position that is a multiple of four away from base rounds up like the distance
  lemma RoundUpFrom(base: nat, x: nat)
    requires base % 4 == 0
    ensures RoundUp(base + x, 4) == base + RoundUp(x, 4)
  {
    DivIs(base + x + 3, 4, base / 4 + (x + 3) / 4, (x + 3) % 4);
  }

  // bytes, and zeros that are left as a hole up to a multiple of four
  method WriteField(data: Bytes, file: File) returns (ok: bool)
    requires file.Valid() && file.pos % 4 == 0
    modifies file
    ensures file.Valid() && |data| <= RoundUp(|data|, 4)
    ensures ok ==> file.View() == old(file.View()) + data + Zeros(RoundUp(|data|, 4) - |data|) && file.pos % 4 == 0
    ensures ok ==> file.Hole() == (if data == [] then old(file.Hole()) else 0) + RoundUp(|data|, 4) - |data|
  {
    hide RoundUp; hide Zeros; hide File.View; hide File.Hole;
    ghost var start := file.pos;
    RoundUpIs(|data|, 4);
    ok := file.Write(data);
    if !ok { return; }
    RoundUpFrom(start, |data|);
    RoundUpIs(file.pos, 4);
    ok := file.Seek(RoundUp(file.pos, 4));
  }

  // writenote: at a multiple of four it writes exactly the image
  method WriteNote(f: Format, n: Note, file: File) returns (ok: bool)
    requires f.Valid() && file.Valid() && file.pos % 4 == 0
    modifies file
    ensures file.Valid() && (ok ==> file.View() == old(file.View()) + NoteImage(f, n) && file.Hole() == NoteHole(n))
  {
    hide RoundUp; hide Zeros; hide File.View; hide File.Hole;
    ghost var view := file.View();
    var namesz := |n.name| + 1;
    RoundUpNone();
    var header := f.note(namesz, |n.data|, n.typ);
    ok := file.Write(header);
    if !ok { return; }
    ok := WriteField(n.name + [0], file);
    if !ok { return; }
    ok := WriteField(n.data, file);
    Regroup(view, header, n.name + [0], Zeros(RoundUp(namesz, 4) - namesz), n.data, Zeros(RoundUp(|n.data|, 4) - |n.data|));
  }

  lemma RoundUpNone()
    ensures RoundUp(0, 4) == 0
  {
  }

  lemma Regroup(v: Bytes, a: Bytes, b: Bytes, c: Bytes, d: Bytes, e: Bytes)
    ensures v + a + b + c + d + e == v + (a + b + c + d + e)
  {
  }

  lemma Regroup3(v: Bytes, a: Bytes, b: Bytes)
    ensures v + a + b == v + (a + b)
  {
  }

  lemma Unchanged(v: Bytes)
    ensures v + [] == v
  {
  }

  // -------------------------------------------------------------- the layout

  // a page of an area: not there, the shared zero page, or data
  datatype Page = Missing | ZeroPage | Data(bytes: Bytes)

  // the fields of a vm_area_struct that matter, and its pages
  datatype Vma = Vma(start: nat, end: nat, io: bool, shared: bool, reserved: bool, anon: bool,
                     read: bool, write: bool, exec: bool, pages: seq<Page>) {
    ghost predicate Valid() {
      && start <= end && end - start == PAGE_SIZE * |pages|
      && forall i | 0 <= i < |pages| && pages[i].Data? :: |pages[i].bytes| == PAGE_SIZE
    }
  }

  predicate MayDump(v: Vma) {
    !(v.io || v.shared || v.reserved) && v.anon
  }

  ghost function PageImage(p: Page): Bytes {
    if p.Data? then p.bytes else Zeros(PAGE_SIZE)
  }

  ghost function PagesImage(ps: seq<Page>): Bytes {
    if ps == [] then [] else PagesImage(ps[..|ps| - 1]) + PageImage(ps[|ps| - 1])
  }

  // what the file holds of an area
  ghost function SegmentImage(v: Vma): Bytes {
    if MayDump(v) then PagesImage(v.pages) else []
  }

  // a hole of h bytes, and then the pages: all but data pages make it longer
  function PagesHole(ps: seq<Page>, h: nat): nat {
    if ps == [] then h else if ps[|ps| - 1].Data? then 0 else PagesHole(ps[..|ps| - 1], h) + PAGE_SIZE
  }

  function AreasHole(vs: seq<Vma>, h: nat): nat {
    if vs == [] then h
    else
      var front := AreasHole(vs[..|vs| - 1], h);
      if MayDump(vs[|vs| - 1]) then PagesHole(vs[|vs| - 1].pages, front) else front
  }

  // the pages of the areas that are dumped
  function DumpedPages(vs: seq<Vma>): seq<Page> {
    if vs == [] then []
    else DumpedPages(vs[..|vs| - 1]) + if MayDump(vs[|vs| - 1]) then vs[|vs| - 1].pages else []
  }

  lemma {:induction false} PagesHoleAppend(ps: seq<Page>, qs: seq<Page>, h: nat)
    ensures PagesHole(ps + qs, h) == PagesHole(qs, PagesHole(ps, h))
    decreases |qs|
  {
    if qs == [] {
      assert ps + qs == ps;
    } else {
      assert (ps + qs)[..|ps + qs| - 1] == ps + qs[..|qs| - 1];
      PagesHoleAppend(ps, qs[..|qs| - 1], h);
    }
  }

  lemma {:induction false} AreasHoleIs(vs: seq<Vma>, h: nat)
    ensures AreasHole(vs, h) == PagesHole(DumpedPages(vs), h)
  {
    if vs != [] {
      var front, last := vs[..|vs| - 1], vs[|vs| - 1];
      AreasHoleIs(front, h);
      if MayDump(last) {
        PagesHoleAppend(DumpedPages(front), last.pages, h);
      } else {
        assert DumpedPages(front) + [] == DumpedPages(front);
      }
    }
  }

  // The dump is in the file to its last byte if and only if the last page dumped is
  // data, or no page is and no hole h precedes the areas.  In ElfCoreDump h is the hole
  // of the last note and the fill from there to dataoff: both must then be nothing.
  lemma HoleClosed(vs: seq<Vma>, h: nat)
    ensures var ps := DumpedPages(vs); AreasHole(vs, h) == 0 <==> if ps == [] then h == 0 else ps[|ps| - 1].Data?
  {
    AreasHoleIs(vs, h);
  }

  // One area, whose only page is the zero page: what is left of it is a hole at the
  // end, and the file ends before the offset its program header gives.
  lemma ZeroPageLost(h: nat)
    ensures var v := Vma(0, PAGE_SIZE, false, false, false, true, true, true, false, [ZeroPage]);
      v.Valid() && MayDump(v) && AreasHole([v], h) == h + PAGE_SIZE == h + FileSize(v)
  {
    var v := Vma(0, PAGE_SIZE, false, false, false, true, true, true, false, [ZeroPage]);
    assert [v][..0] == [];
    assert AreasHole([], h) == h && PagesHole([], h) == h && [ZeroPage][..0] == [];
  }

  lemma {:induction false} PagesImageSize(ps: seq<Page>)
    requires forall i | 0 <= i < |ps| && ps[i].Data? :: |ps[i].bytes| == PAGE_SIZE
    ensures |PagesImage(ps)| == PAGE_SIZE * |ps|
  {
    if ps != [] { PagesImageSize(ps[..|ps| - 1]); }
  }

  ghost function SegmentsImage(vs: seq<Vma>): Bytes {
    if vs == [] then [] else SegmentsImage(vs[..|vs| - 1]) + SegmentImage(vs[|vs| - 1])
  }

  ghost function NotesImage(f: Format, ns: seq<Note>): Bytes {
    if ns == [] then [] else NotesImage(f, ns[..|ns| - 1]) + NoteImage(f, ns[|ns| - 1])
  }

  ghost function PhdrsImage(f: Format, ps: seq<Phdr>): Bytes {
    if ps == [] then [] else PhdrsImage(f, ps[..|ps| - 1]) + f.phdr(ps[|ps| - 1])
  }

  // bytes in the file of an area
  function FileSize(v: Vma): int {
    if MayDump(v) then v.end - v.start else 0
  }

  // the program header of an area whose data is to start at offset
  function PhdrOf(v: Vma, offset: nat): Phdr
    requires v.start <= v.end
  {
    Phdr(PT_LOAD, offset, v.start, FileSize(v), v.end - v.start, v.read, v.write, v.exec)
  }

  // the headers of the first areas: their offsets run on from one to the next
  ghost predicate Planned(ps: seq<Phdr>, vs: seq<Vma>, dataoff: nat) {
    |ps| <= |vs| && forall i | 0 <= i < |ps| :: RunsOn(ps, vs, dataoff, i)
  }

  ghost predicate RunsOn(ps: seq<Phdr>, vs: seq<Vma>, dataoff: nat, i: nat)
    requires i < |ps| && i < |vs|
  {
    vs[i].start <= vs[i].end && ps[i] == PhdrOf(vs[i], End(ps, i, dataoff))
  }

  // where the data of the first i areas ends
  function End(ps: seq<Phdr>, i: nat, dataoff: nat): nat
    requires i <= |ps|
  {
    if i == 0 then dataoff else ps[i - 1].offset + ps[i - 1].filesz
  }

  lemma NoSegments(vs: seq<Vma>)
    requires vs == []
    ensures SegmentsImage(vs) == []
  {
  }

  lemma SegmentsSnoc(vs: seq<Vma>, i: nat)
    requires 0 < i <= |vs|
    ensures SegmentsImage(vs[..i]) == SegmentsImage(vs[..i - 1]) + SegmentImage(vs[i - 1])
  {
    assert vs[..i][..i - 1] == vs[..i - 1];
  }

  lemma {:induction false} EndIs(ps: seq<Phdr>, vs: seq<Vma>, dataoff: nat, i: nat)
    requires Planned(ps, vs, dataoff) && i <= |ps| && forall k | 0 <= k < i :: vs[k].Valid()
    ensures End(ps, i, dataoff) == dataoff + |SegmentsImage(vs[..i])|
  {
    hide SegmentImage; hide SegmentsImage; hide Vma.Valid; hide FileSize;
    if i == 0 {
      NoSegments(vs[..0]);
    } else {
      EndIs(ps, vs, dataoff, i - 1);
      assert RunsOn(ps, vs, dataoff, i - 1);
      SegmentImageSize(vs[i - 1]);
      SegmentsSnoc(vs, i);
    }
  }

  // -------------------------------------------------------------- the passes

  method NotesSize(f: Format, ns: seq<Note>) returns (sz: nat)
    requires f.Valid()
    ensures sz == |NotesImage(f, ns)| && sz % 4 == 0
  {
    hide NoteSize; hide NoteImage;
    sz := 0;
    for i := 0 to |ns|
      invariant sz == |NotesImage(f, ns[..i])| && sz % 4 == 0
    {
      NoteImageSize(f, ns[i]);
      assert ns[..i + 1][..i] == ns[..i];
      sz := sz + NoteSize(ns[i]);
    }
    assert ns[..|ns|] == ns;
  }

  method WriteNotes(f: Format, ns: seq<Note>, file: File) returns (ok: bool)
    requires f.Valid() && file.Valid() && file.pos % 4 == 0
    modifies file
    ensures file.Valid() && (ok ==> file.View() == old(file.View()) + NotesImage(f, ns) && file.pos % 4 == 0)
    ensures ok ==> file.Hole() == NotesHole(ns, old(file.Hole()))
  {
    hide NoteImage; hide NotesImage; hide File.View; hide File.Hole; hide NoteHole; hide NotesHole;
    ghost var view, hole := file.View(), file.Hole();
    NoNotes(f, ns, hole);
    Unchanged(view);
    for i := 0 to |ns|
      invariant file.Valid() && file.pos % 4 == 0 && file.View() == view + NotesImage(f, ns[..i])
      invariant file.Hole() == NotesHole(ns[..i], hole)
    {
      NoteImageSize(f, ns[i]);
      ok := WriteNote(f, ns[i], file);
      if !ok { return; }
      NotesSnoc(f, ns, i, hole);
      Regroup3(view, NotesImage(f, ns[..i]), NoteImage(f, ns[i]));
    }
    assert ns[..|ns|] == ns;
    ok := true;
  }

  lemma NoNotes(f: Format, ns: seq<Note>, h: nat)
    ensures NotesImage(f, ns[..0]) == [] && NotesHole(ns[..0], h) == h
  {
  }

  lemma NotesSnoc(f: Format, ns: seq<Note>, i: nat, h: nat)
    requires i < |ns|
    ensures NotesImage(f, ns[..i + 1]) == NotesImage(f, ns[..i]) + NoteImage(f, ns[i])
    ensures NotesHole(ns[..i + 1], h) == NoteHole(ns[i])
  {
    hide NoteImage; hide NoteHole;
    assert ns[..i + 1][..i] == ns[..i];
  }

  // DUMP_WRITE: within the limit, and written
  method DumpWrite(file: File, data: Bytes, size: nat, limit: nat) returns (ok: bool, size': nat)
    requires file.Valid()
    modifies file
    ensures file.Valid() && size' == size + |data| && (ok ==> size' <= limit && file.View() == old(file.View()) + data)
    ensures ok ==> file.Hole() == if data == [] then old(file.Hole()) else 0
  {
    size' := size + |data|;
    if size' > limit { return false, size'; }
    ok := file.Write(data);
  }

  // the program headers, while the offsets are assigned
  method WritePhdrs(f: Format, vs: seq<Vma>, dataoff: nat, file: File, size: nat, limit: nat)
    returns (ok: bool, offset: nat, size': nat, ps: seq<Phdr>)
    requires f.Valid() && file.Valid() && forall i | 0 <= i < |vs| :: vs[i].Valid()
    modifies file
    ensures file.Valid()
    ensures ok ==> Planned(ps, vs, dataoff) && |ps| == |vs| && offset == dataoff + |SegmentsImage(vs)|
    ensures ok ==> file.View() == old(file.View()) + PhdrsImage(f, ps) && (old(file.Hole()) == 0 ==> file.Hole() == 0)
  {
    hide File.View; hide File.Hole; hide SegmentImage; hide SegmentsImage; hide Vma.Valid; hide Planned; hide PhdrsImage; hide PhdrOf; hide End;
    ghost var view := file.View();
    offset, size', ps := dataoff, size, [];
    PlanNothing(f, vs, dataoff);
    assert view + [] == view;
    for i := 0 to |vs|
      invariant file.Valid() && Planned(ps, vs, dataoff) && |ps| == i && offset == End(ps, i, dataoff)
      invariant file.View() == view + PhdrsImage(f, ps) && (old(file.Hole()) == 0 ==> file.Hole() == 0)
    {
      SegmentImageSize(vs[i]);
      var phdr := PhdrOf(vs[i], offset);
      PlanMore(ps, vs, dataoff, phdr);
      PhdrsSnoc(f, ps, phdr);
      PhdrStarts(vs[i], offset);
      offset := offset + phdr.filesz;
      ok, size' := DumpWrite(file, f.phdr(phdr), size', limit);
      if !ok { return; }
      assert view + PhdrsImage(f, ps) + f.phdr(phdr) == view + (PhdrsImage(f, ps) + f.phdr(phdr));
      ps := ps + [phdr];
    }
    EndIs(ps, vs, dataoff, |vs|);
    assert vs[..|vs|] == vs;
    ok := true;
  }

  lemma PlanNothing(f: Format, vs: seq<Vma>, dataoff: nat)
    ensures Planned([], vs, dataoff) && End([], 0, dataoff) == dataoff && PhdrsImage(f, []) == []
  {
  }

  lemma PlanMore(ps: seq<Phdr>, vs: seq<Vma>, dataoff: nat, p: Phdr)
    requires Planned(ps, vs, dataoff) && |ps| < |vs| && vs[|ps|].start <= vs[|ps|].end
    requires p == PhdrOf(vs[|ps|], End(ps, |ps|, dataoff))
    ensures Planned(ps + [p], vs, dataoff) && End(ps + [p], |ps| + 1, dataoff) == p.offset + p.filesz
  {
    hide PhdrOf;
    var qs := ps + [p];
    forall i | 0 <= i < |qs|
      ensures RunsOn(qs, vs, dataoff, i)
    {
      assert End(qs, i, dataoff) == End(ps, i, dataoff);
      if i < |ps| { assert RunsOn(ps, vs, dataoff, i); }
    }
  }

  lemma PhdrStarts(v: Vma, offset: nat)
    requires v.start <= v.end
    ensures PhdrOf(v, offset).offset == offset
  {
  }

  lemma PhdrsSnoc(f: Format, ps: seq<Phdr>, p: Phdr)
    ensures PhdrsImage(f, ps + [p]) == PhdrsImage(f, ps) + f.phdr(p)
  {
    assert (ps + [p])[..|ps|] == ps;
  }

  lemma SegmentImageSize(v: Vma)
    requires v.Valid()
    ensures |SegmentImage(v)| == FileSize(v) >= 0 && v.start <= v.end
  {
    PagesImageSize(v.pages);
  }

  // the pages of one area: data is written, the others are left as holes
  method WritePages(pages: seq<Page>, file: File, size: nat, limit: nat) returns (ok: bool, size': nat)
    requires file.Valid() && forall i | 0 <= i < |pages| && pages[i].Data? :: |pages[i].bytes| == PAGE_SIZE
    modifies file
    ensures file.Valid() && (ok ==> file.View() == old(file.View()) + PagesImage(pages))
    ensures ok ==> file.Hole() == PagesHole(pages, old(file.Hole()))
  {
    hide File.View; hide File.Hole; hide PagesImage; hide PagesHole;
    ghost var view, hole := file.View(), file.Hole();
    size' := size;
    NoPages(pages, hole);
    Unchanged(view);
    for i := 0 to |pages|
      invariant file.Valid() && file.View() == view + PagesImage(pages[..i]) && file.Hole() == PagesHole(pages[..i], hole)
    {
      if pages[i].Data? {
        ok, size' := DumpWrite(file, pages[i].bytes, size', limit);
      } else {
        ok := file.Seek(file.pos + PAGE_SIZE);
      }
      if !ok { return; }
      PagesSnoc(pages, i, hole);
      Regroup3(view, PagesImage(pages[..i]), PageImage(pages[i]));
    }
    assert pages[..|pages|] == pages;
    ok := true;
  }

  lemma NoPages(ps: seq<Page>, h: nat)
    ensures PagesImage(ps[..0]) == [] && PagesHole(ps[..0], h) == h
  {
  }

  lemma PagesSnoc(ps: seq<Page>, i: nat, h: nat)
    requires i < |ps|
    ensures PagesImage(ps[..i + 1]) == PagesImage(ps[..i]) + PageImage(ps[i])
    ensures PagesHole(ps[..i + 1], h) == if ps[i].Data? then 0 else PagesHole(ps[..i], h) + PAGE_SIZE
  {
    hide PageImage;
    assert ps[..i + 1][..i] == ps[..i];
  }

  method WriteAreas(vs: seq<Vma>, file: File, size: nat, limit: nat) returns (ok: bool)
    requires file.Valid() && forall i | 0 <= i < |vs| :: vs[i].Valid()
    modifies file
    ensures file.Valid() && (ok ==> file.View() == old(file.View()) + SegmentsImage(vs))
    ensures ok ==> file.Hole() == AreasHole(vs, old(file.Hole()))
  {
    hide File.View; hide File.Hole; hide PagesImage; hide PagesHole; hide SegmentsImage; hide AreasHole;
    ghost var view, hole := file.View(), file.Hole();
    var size' := size;
    NoSegments(vs[..0]);
    NoAreas(vs, hole);
    Unchanged(view);
    for i := 0 to |vs|
      invariant file.Valid() && file.View() == view + SegmentsImage(vs[..i]) && file.Hole() == AreasHole(vs[..i], hole)
    {
      ok := true;
      if MayDump(vs[i]) {
        ok, size' := WritePages(vs[i].pages, file, size', limit);
      }
      if !ok { return; }
      SegmentsSnoc(vs, i + 1);
      AreasSnoc(vs, i, hole);
      Regroup3(view, SegmentsImage(vs[..i]), SegmentImage(vs[i]));
      Unchanged(view + SegmentsImage(vs[..i]));
    }
    assert vs[..|vs|] == vs;
    ok := true;
  }

  lemma NoAreas(vs: seq<Vma>, h: nat)
    ensures AreasHole(vs[..0], h) == h
  {
  }

  lemma AreasSnoc(vs: seq<Vma>, i: nat, h: nat)
    requires i < |vs|
    ensures AreasHole(vs[..i + 1], h)
         == if MayDump(vs[i]) then PagesHole(vs[i].pages, AreasHole(vs[..i], h)) else AreasHole(vs[..i], h)
  {
    hide PagesHole; hide MayDump;
    assert vs[..i + 1][..i] == vs[..i];
  }

  // elf_core_dump from the first write up to the data
  method DumpHead(f: Format, notes: seq<Note>, threads: seq<Note>, vs: seq<Vma>, file: File, limit: nat)
    returns (ok: bool, size: nat, offset: nat, dataoff: nat, note: Phdr, ps: seq<Phdr>)
    requires f.Valid() && file.Valid() && file.View() == [] && forall i | 0 <= i < |vs| :: vs[i].Valid()
    modifies file
    ensures file.Valid()
    ensures ok ==> file.pos == dataoff && offset == dataoff + |SegmentsImage(vs)| && dataoff % ELF_EXEC_PAGESIZE == 0
    ensures ok ==> Planned(ps, vs, dataoff) && |ps| == |vs|
    ensures ok ==> note.offset == |f.elf| + |f.phdr(note)| + |PhdrsImage(f, ps)|
    ensures ok ==> note.filesz == |NotesImage(f, notes)| + |NotesImage(f, threads)|
    ensures ok ==> note.offset + note.filesz <= dataoff < note.offset + note.filesz + ELF_EXEC_PAGESIZE
    ensures ok ==> file.View() == HeadImage(f, note, ps, notes, threads, dataoff - (note.offset + note.filesz))
    ensures ok ==> file.Hole() == NotesHole(threads, NotesHole(notes, 0)) + dataoff - (note.offset + note.filesz)
  {
    hide NotesHole; hide File.Hole; hide Vma.Valid; hide PhdrsImage; hide SegmentsImage; hide Planned; hide RoundUp; hide Zeros;
    hide File.View; hide NotesImage;
    file.HoleIs();
    dataoff, ps := 0, [];
    offset := HeadersEnd(f, |vs|);
    var sz := NotesSize(f, notes);
    var thread_status_size := NotesSize(f, threads);
    note := Phdr(PT_NOTE, offset, 0, sz + thread_status_size, 0, false, false, false);
    ok, size := DumpWrite(file, f.elf, 0, limit);
    if !ok { return; }
    ok, size := DumpWrite(file, f.phdr(note), size, limit);
    if !ok { return; }
    offset := offset + sz + thread_status_size;
    RoundUpIs(offset, ELF_EXEC_PAGESIZE);
    dataoff := RoundUp(offset, ELF_EXEC_PAGESIZE);
    ok, offset, size, ps := WritePhdrs(f, vs, dataoff, file, size, limit);
    if !ok { return; }
    HeadersSize(f, note, ps, vs);
    ok := WriteNotes(f, notes, file);
    if !ok { return; }
    ok := WriteNotes(f, threads, file);
    if !ok { return; }
    ok := file.Seek(dataoff);
  }

  // elf_core_dump from the first write: notes are those of the process, then those
  // of the other threads.  When nothing failed and the limit was not hit, the position
  // is where the plan ends and the file is the planned image without the hole that the
  // last notes and pages may leave at its end, see HoleClosed.
  method ElfCoreDump(f: Format, notes: seq<Note>, threads: seq<Note>, vs: seq<Vma>, file: File, limit: nat)
    returns (ok: bool, offset: nat, dataoff: nat, note: Phdr, ps: seq<Phdr>)
    requires f.Valid() && file.Valid() && file.View() == [] && forall i | 0 <= i < |vs| :: vs[i].Valid()
    modifies file
    ensures file.Valid()
    ensures ok ==> file.pos == offset == dataoff + |SegmentsImage(vs)| && dataoff % ELF_EXEC_PAGESIZE == 0
    ensures ok ==> Planned(ps, vs, dataoff) && |ps| == |vs|
    ensures ok ==> note.offset == |f.elf| + |f.phdr(note)| + |PhdrsImage(f, ps)|
    ensures ok ==> note.filesz == |NotesImage(f, notes)| + |NotesImage(f, threads)|
    ensures ok ==> note.offset + note.filesz <= dataoff < note.offset + note.filesz + ELF_EXEC_PAGESIZE
    ensures ok ==> file.View() == HeadImage(f, note, ps, notes, threads, dataoff - (note.offset + note.filesz)) + SegmentsImage(vs)
    ensures ok ==> file.content <= file.View() && |file.content| == offset - file.Hole()
    ensures ok ==> file.Hole() == AreasHole(vs, NotesHole(threads, NotesHole(notes, 0)) + dataoff - (note.offset + note.filesz))
    ensures ok ==> forall i | 0 <= i < |vs| ::
      AreaAt(file.View(), ps[i], vs[i]) && (AreaAt(file.content, ps[i], vs[i]) <==> ps[i].offset + ps[i].filesz <= |file.content|)
  {
    hide NotesHole; hide AreasHole; hide File.Hole; hide File.View; hide AreaAt; hide Vma.Valid; hide SegmentsImage; hide Planned;
    hide HeadImage; hide PhdrsImage; hide NotesImage;
    var size;
    ok, size, offset, dataoff, note, ps := DumpHead(f, notes, threads, vs, file, limit);
    if !ok { return; }
    ghost var front := file.View();
    ok := WriteAreas(vs, file, size, limit);
    if ok {
      AreasAt(file.View(), front, ps, vs, dataoff);
      AreasIn(file.content, file.View(), ps, vs);
      file.HoleIs();
    }
  }

  // the bytes of an area start at the offset in its program header
  ghost predicate AreaAt(view: Bytes, p: Phdr, v: Vma) {
    p.offset + p.filesz <= |view| && view[p.offset..p.offset + p.filesz] == SegmentImage(v)
  }

  // of an area the file holds all, or not all
  lemma AreasIn(content: Bytes, view: Bytes, ps: seq<Phdr>, vs: seq<Vma>)
    requires content <= view && |ps| == |vs| && forall i | 0 <= i < |vs| :: AreaAt(view, ps[i], vs[i])
    ensures forall i | 0 <= i < |vs| :: AreaAt(content, ps[i], vs[i]) <==> ps[i].offset + ps[i].filesz <= |content|
  {
    hide SegmentImage;
    forall i | 0 <= i < |vs|
      ensures AreaAt(content, ps[i], vs[i]) <==> ps[i].offset + ps[i].filesz <= |content|
    {
      assert AreaAt(view, ps[i], vs[i]);
    }
  }

  lemma AreasAt(view: Bytes, front: Bytes, ps: seq<Phdr>, vs: seq<Vma>, dataoff: nat)
    requires view == front + SegmentsImage(vs) && |front| == dataoff && Planned(ps, vs, dataoff)
    requires |vs| == |ps| && forall k | 0 <= k < |vs| :: vs[k].Valid()
    ensures forall i | 0 <= i < |vs| :: AreaAt(view, ps[i], vs[i])
  {
    hide SegmentsImage; hide SegmentImage; hide Vma.Valid; hide Planned; hide AreaAt;
    forall i | 0 <= i < |vs|
      ensures AreaAt(view, ps[i], vs[i])
    {
      AreaAtOffset(view, front, ps, vs, dataoff, i);
    }
  }

  // where the header and n + 1 program headers end
  function HeadersEnd(f: Format, n: nat): (end: nat)
    requires f.Valid()
    ensures end % 4 == 0
  {
    Aligned(|f.elf|, n + 1, f.phdrSize);
    |f.elf| + (n + 1) * f.phdrSize
  }

  lemma HeadersSize(f: Format, note: Phdr, ps: seq<Phdr>, vs: seq<Vma>)
    requires f.Valid() && |ps| == |vs|
    ensures |f.elf| + |f.phdr(note)| + |PhdrsImage(f, ps)| == HeadersEnd(f, |vs|)
  {
    PhdrsImageSize(f, ps);
    Spread(|f.elf|, |vs|, f.phdrSize);
  }

  lemma {:induction false} SegmentInside(vs: seq<Vma>, i: nat)
    requires i < |vs|
    ensures |SegmentsImage(vs[..i])| + |SegmentImage(vs[i])| <= |SegmentsImage(vs)|
    ensures SegmentsImage(vs)[|SegmentsImage(vs[..i])|..][..|SegmentImage(vs[i])|] == SegmentImage(vs[i])
  {
    hide SegmentImage;
    var n := |vs| - 1;
    if i < n {
      SegmentInside(vs[..n], i);
      assert vs[..n][..i] == vs[..i];
    }
  }

  lemma AreaAtOffset(view: Bytes, front: Bytes, ps: seq<Phdr>, vs: seq<Vma>, dataoff: nat, i: nat)
    requires view == front + SegmentsImage(vs) && |front| == dataoff && Planned(ps, vs, dataoff)
    requires i < |vs| == |ps| && forall k | 0 <= k < |vs| :: vs[k].Valid()
    ensures AreaAt(view, ps[i], vs[i])
  {
    hide SegmentsImage; hide SegmentImage; hide FileSize; hide Vma.Valid; hide Planned; hide AreaAt; hide End;
    EndIs(ps, vs, dataoff, i);
    PlannedAt(ps, vs, dataoff, i);
    SegmentImageSize(vs[i]);
    SegmentInside(vs, i);
    AreaFound(view, front, SegmentsImage(vs), |SegmentsImage(vs[..i])|, ps[i], vs[i]);
  }

  lemma PlannedAt(ps: seq<Phdr>, vs: seq<Vma>, dataoff: nat, i: nat)
    requires Planned(ps, vs, dataoff) && i < |ps|
    ensures ps[i].offset == End(ps, i, dataoff) && ps[i].filesz == FileSize(vs[i])
  {
    hide End; hide FileSize;
    assert RunsOn(ps, vs, dataoff, i);
  }

  lemma AreaFound(view: Bytes, front: Bytes, s: Bytes, k: nat, p: Phdr, v: Vma)
    requires view == front + s && k + |SegmentImage(v)| <= |s| && s[k..][..|SegmentImage(v)|] == SegmentImage(v)
    requires p.offset == |front| + k && p.filesz == |SegmentImage(v)|
    ensures AreaAt(view, p, v)
  {
    hide SegmentImage;
    Shifted(front, s, k, p.filesz);
  }

  lemma Shifted(front: Bytes, s: Bytes, k: nat, n: nat)
    requires k + n <= |s|
    ensures (front + s)[|front| + k..|front| + k + n] == s[k..][..n]
  {
  }

  // header, program headers, notes, zeros to a page boundary
  ghost function HeadImage(f: Format, note: Phdr, ps: seq<Phdr>, notes: seq<Note>, threads: seq<Note>, fill: nat): Bytes {
    [] + f.elf + f.phdr(note) + PhdrsImage(f, ps) + NotesImage(f, notes) + NotesImage(f, threads) + Zeros(fill)
  }

  lemma Aligned(a: nat, n: nat, size: nat)
    requires a % 4 == 0 && size % 4 == 0
    ensures (a + n * size) % 4 == 0 && a + n * size >= a
  {
    assert n * size == 4 * (n * (size / 4));
    SameMod(a + n * size, a, 4, n * (size / 4));
  }

  lemma Spread(a: nat, n: nat, size: nat)
    ensures a + (n + 1) * size == a + size + size * n
  {
  }

  lemma {:induction false} PhdrsImageSize(f: Format, ps: seq<Phdr>)
    requires f.Valid()
    ensures |PhdrsImage(f, ps)| == f.phdrSize * |ps|
  {
    if ps != [] {
      PhdrsImageSize(f, ps[..|ps| - 1]);
      assert f.phdrSize * |ps| == f.phdrSize * (|ps| - 1) + f.phdrSize;
    }
  }
}
