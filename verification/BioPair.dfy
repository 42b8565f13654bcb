// bio_split, bio_endio and the completion callbacks of a split bio, fs/bio.c.
// Each method is one step that other processors can come between: a callback
// records its half, and the counter is dropped in a step of its own.
module BioPair {
  // bi_sector, bi_size, BIO_UPTODATE and the single bio_vec; ends lists the calls of
  // bi_end_io as (bytes, error)
  datatype Bio = Bio(sector: nat, size: nat, uptodate: bool, offset: nat, len: nat, ends: seq<(nat, int)>)

  // bio_endio
  function EndIo(bio: Bio, bytesDone: nat, error: int): Bio {
    var done := if bytesDone > bio.size then bio.size else bytesDone;
    bio.(uptodate := bio.uptodate && error == 0, size := bio.size - done, sector := bio.sector + done / 512,
         ends := bio.ends + [(done, error)])
  }

  class Pair {
    var cnt: int
    var error: int
    var bio1: Bio
    var bio2: Bio
    var master: Bio

    // the callbacks that found their half finished, and the three releases done
    ghost var due1: bool
    ghost var due2: bool
    ghost var released1: bool
    ghost var released2: bool
    ghost var released3: bool
    ghost const total: Bio          // the master as it was split
    ghost var reported: set<int>    // the errors the halves reported

    ghost predicate Valid()
      reads this
    {
      && cnt == (if released1 then 0 else 1) + (if released2 then 0 else 1) + (if released3 then 0 else 1)
      && (released1 ==> due1) && (released2 ==> due2) && (due1 <==> bio1.size == 0) && (due2 <==> bio2.size == 0)
      && 0 !in reported && (error == 0 <==> reported == {}) && (error != 0 ==> error in reported)
      && if cnt > 0 then master == total
         else master == EndIo(total, total.size, error)
    }

    // bio_split; the caller splits inside a bio of one page
    constructor (bio: Bio, firstSectors: nat)
      requires bio.size == bio.len && 0 < 512 * firstSectors < bio.size
      ensures Valid() && total == bio && !due1 && !due2 && !released1 && !released2 && !released3 && reported == {}
      // the halves are the two parts of the master, in sectors and in the page
      ensures bio1.sector == bio.sector && bio2.sector == bio.sector + firstSectors
      ensures bio1.size == 512 * firstSectors && bio1.size + bio2.size == bio.size
      ensures bio1.offset == bio.offset && bio2.offset == bio1.offset + bio1.len && bio1.len + bio2.len == bio.len
      ensures bio1.len == bio1.size && bio2.len == bio2.size
    {
      cnt, error, master, total := 3, 0, bio, bio;
      bio1 := bio.(size := 512 * firstSectors, len := 512 * firstSectors);
      bio2 := bio.(sector := bio.sector + firstSectors, size := bio.size - 512 * firstSectors,
                   offset := bio.offset + 512 * firstSectors, len := bio.len - 512 * firstSectors);
      due1, due2, released1, released2, released3, reported := false, false, false, false, false, {};
    }

    // bio_endio on the first half with its callback up to the release
    method End1(bytesDone: nat, err: int) returns (release: bool)
      requires Valid() && bio1.size > 0
      modifies this
      ensures Valid() && bio1 == EndIo(old(bio1), bytesDone, err) && release == due1 == (bio1.size == 0)
      ensures reported == old(reported) + (if err != 0 then {err} else {}) && bio2 == old(bio2) && due2 == old(due2)
      ensures released1 == old(released1) && released2 == old(released2) && released3 == old(released3) && master == old(master)
    {
      bio1 := EndIo(bio1, bytesDone, err);
      if err != 0 {
        error := err;
        reported := reported + {err};
      }
      release := bio1.size == 0;
      due1 := bio1.size == 0;
    }

    method End2(bytesDone: nat, err: int) returns (release: bool)
      requires Valid() && bio2.size > 0
      modifies this
      ensures Valid() && bio2 == EndIo(old(bio2), bytesDone, err) && release == due2 == (bio2.size == 0)
      ensures reported == old(reported) + (if err != 0 then {err} else {}) && bio1 == old(bio1) && due1 == old(due1)
      ensures released1 == old(released1) && released2 == old(released2) && released3 == old(released3) && master == old(master)
    {
      bio2 := EndIo(bio2, bytesDone, err);
      if err != 0 {
        error := err;
        reported := reported + {err};
      }
      release := bio2.size == 0;
      due2 := bio2.size == 0;
    }

    // bio_pair_release: by the callback of the first half, of the second, by the submitter
    method Release(ghost who: int)
      requires Valid()
      requires who == 1 ==> due1 && !released1
      requires who == 2 ==> due2 && !released2
      requires who == 3 ==> !released3
      requires 1 <= who <= 3
      modifies this
      ensures Valid() && released1 == (old(released1) || who == 1) && released2 == (old(released2) || who == 2)
      ensures released3 == (old(released3) || who == 3)
      ensures bio1 == old(bio1) && bio2 == old(bio2) && reported == old(reported) && due1 == old(due1) && due2 == old(due2)
    {
      released1, released2, released3 := released1 || who == 1, released2 || who == 2, released3 || who == 3;
      cnt := cnt - 1;
      if cnt == 0 {
        master := EndIo(master, master.size, error);
      }
    }

    // The master is ended at most once, exactly when both halves are done and all three
    // releases are in, for its full size, with an error exactly when a half reported one.
    lemma EndedOnce()
      requires Valid()
      ensures master.ends == if released1 && released2 && released3 then total.ends + [(total.size, error)] else total.ends
      ensures master.ends != total.ends ==> bio1.size == 0 && bio2.size == 0 && master.size == 0
      ensures error != 0 <==> reported != {}
      ensures master.ends != total.ends ==> master.uptodate == (total.uptodate && reported == {})
    {
      assert total.ends + [(total.size, error)] != total.ends;
    }
  }
}
