// do_open and blkdev_put of fs/block_dev.c on a disk and its partitions, one
// operation at a time: who counts whom.
module BlockOpen {
  import opened Basics

  // bd_contains: NULL, the device itself, or the disk of a partition
  datatype Contains = Null | Self | TheDisk

  // inode references, bd_openers, bd_part_count, bd_contains and whether bd_disk is set
  datatype Bdev = Bdev(refs: int, openers: int, partCount: int, contains: Contains, hasDisk: bool)

  function Bit(b: bool): int {
    if b then 1 else 0
  }

  // openers of all partitions, and the number of partitions that are open
  ghost function Openers(parts: seq<Bdev>): int {
    if parts == [] then 0 else Openers(parts[..|parts| - 1]) + parts[|parts| - 1].openers
  }

  ghost function Open(parts: seq<Bdev>): int {
    if parts == [] then 0 else Open(parts[..|parts| - 1]) + Bit(parts[|parts| - 1].openers > 0)
  }

  lemma {:induction false} Updated(parts: seq<Bdev>, i: nat, d: Bdev)
    requires i < |parts|
    ensures Openers(parts[i := d]) == Openers(parts) - parts[i].openers + d.openers
    ensures Open(parts[i := d]) == Open(parts) - Bit(parts[i].openers > 0) + Bit(d.openers > 0)
  {
    var n := |parts| - 1;
    if i == n {
      assert parts[i := d][..n] == parts[..n];
    } else {
      assert parts[i := d][..n] == parts[..n][i := d];
      Updated(parts[..n], i, d);
    }
  }

  lemma {:induction false} OpenBounds(parts: seq<Bdev>, i: nat)
    requires i < |parts| && forall k | 0 <= k < |parts| :: parts[k].openers >= 0
    ensures 0 <= Open(parts) && Bit(parts[i].openers > 0) <= Open(parts) && parts[i].openers <= Openers(parts)
  {
    var n := |parts| - 1;
    if n > 0 { OpenBounds(parts[..n], if i < n then i else 0); }
  }

  // what the foreign calls of an open answer: get_gendisk finds the disk, the driver's
  // open succeeds (0) or fails, bdget_disk finds memory, the partition has sectors
  datatype Answers = Answers(found: bool, driver: int, memory: bool, usable: bool)

  class Disk {
    var whole: Bdev
    var parts: seq<Bdev>
    var diskRefs: int  // references to the gendisk

    // opens of the disk itself that are not yet closed, and inode references of callers
    // who have not opened the device
    ghost var direct: nat
    ghost var spareWhole: nat
    ghost var spare: seq<nat>

    // a device is set up while it has openers
    ghost predicate WholeOk()
      reads this
    {
      && whole.openers >= 0 && whole.hasDisk == (whole.openers > 0)
      && whole.contains == if whole.openers > 0 then Self else Null
    }

    ghost predicate PartOk(d: Bdev) {
      d.openers >= 0 && d.partCount == 0 && d.hasDisk == (d.openers > 0) && d.contains == if d.openers > 0 then TheDisk else Null
    }

    ghost predicate Valid()
      reads this
    {
      && WholeOk() && (forall i | 0 <= i < |parts| :: PartOk(parts[i]))
      && whole.partCount == Openers(parts)
      && whole.openers == direct + Open(parts)
      && diskRefs == Bit(whole.openers > 0) + Open(parts)
      && whole.refs == whole.openers + spareWhole
      && |spare| == |parts| && (forall i | 0 <= i < |parts| :: parts[i].refs == parts[i].openers + spare[i])
    }

    constructor (n: nat)
      ensures Valid() && |parts| == n && direct == 0
    {
      whole := Bdev(0, 0, 0, Null, false);
      parts := seq(n, _ => Bdev(0, 0, 0, Null, false));
      diskRefs, direct, spareWhole := 0, 0, 0;
      spare := seq(n, _ => 0);
      new;
      AllClosed(parts);
    }

    // bdget
    method GrabWhole()
      requires Valid()
      modifies this`whole, this`spareWhole
      ensures Valid() && spareWhole == old(spareWhole) + 1
    {
      whole := whole.(refs := whole.refs + 1);
      spareWhole := spareWhole + 1;
    }

    method GrabPart(i: nat)
      requires Valid() && i < |parts|
      modifies this`parts, this`spare
      ensures Valid() && |parts| == old(|parts|) && spare == old(spare)[i := old(spare)[i] + 1]
    {
      var d := parts[i].(refs := parts[i].refs + 1);
      Updated(parts, i, d);
      parts := parts[i := d];
      spare := spare[i := spare[i] + 1];
    }

    // do_open of the disk; the caller brings a reference to the inode, and loses it on failure
    method OpenWhole(a: Answers) returns (ret: int)
      requires WholeOk()
      modifies this`whole, this`diskRefs
      ensures ret == if !a.found then -ENXIO else a.driver
      ensures ret == 0 ==> WholeOk() && whole == old(whole).(openers := old(whole).openers + 1, contains := Self, hasDisk := true)
      ensures ret == 0 ==> diskRefs == old(diskRefs) + Bit(old(whole.openers) == 0)
      ensures ret != 0 ==> whole == old(whole).(refs := old(whole).refs - 1) && diskRefs == old(diskRefs)
    {
      if !a.found {
        whole := whole.(refs := whole.refs - 1);
        return -ENXIO;
      }
      diskRefs := diskRefs + 1;
      if whole.openers == 0 {
        whole := whole.(hasDisk := true, contains := Self);
        if a.driver != 0 {
          whole := whole.(hasDisk := false, contains := Null);
          diskRefs := diskRefs - 1;
          whole := whole.(refs := whole.refs - 1);
          return a.driver;
        }
      } else {
        diskRefs := diskRefs - 1;
        if a.driver != 0 {
          whole := whole.(refs := whole.refs - 1);
          return a.driver;
        }
      }
      whole := whole.(openers := whole.openers + 1);
      return 0;
    }

    // blkdev_put of the disk
    method PutWhole()
      requires WholeOk() && whole.openers > 0
      modifies this`whole, this`diskRefs
      ensures WholeOk() && diskRefs == old(diskRefs) - Bit(old(whole.openers) == 1)
      ensures whole.openers == old(whole.openers) - 1 && whole.refs == old(whole.refs) - 1 && whole.partCount == old(whole.partCount)
    {
      whole := whole.(openers := whole.openers - 1);
      if whole.openers == 0 {
        diskRefs := diskRefs - 1;
        whole := whole.(hasDisk := false, contains := Null);
      }
      whole := whole.(refs := whole.refs - 1);
    }

    // ------------------------------------------------- opens from outside

    // blkdev_get or blkdev_open of the disk; the caller's reference is kept or dropped
    method OpenDisk(a: Answers) returns (ret: int)
      requires Valid() && spareWhole > 0
      modifies this
      ensures Valid() && parts == old(parts) && spare == old(spare) && spareWhole == old(spareWhole) - 1
      ensures ret == if !a.found then -ENXIO else a.driver
      ensures direct == old(direct) + Bit(ret == 0)
      ensures ret != 0 ==> whole == old(whole).(refs := old(whole).refs - 1) && diskRefs == old(diskRefs)
    {
      NotNegative();
      ret := OpenWhole(a);
      spareWhole := spareWhole - 1;
      direct := direct + if ret == 0 then 1 else 0;
    }

    method CloseDisk()
      requires Valid() && direct > 0
      modifies this
      ensures Valid() && parts == old(parts) && spare == old(spare) && spareWhole == old(spareWhole) && direct == old(direct) - 1
    {
      NotNegative();
      PutWhole();
      direct := direct - 1;
    }

    // do_open of partition i; its first open opens the disk with the answers w
    method OpenPart(i: nat, a: Answers, w: Answers) returns (ret: int)
      requires Valid() && i < |parts| && spare[i] > 0
      modifies this
      ensures Valid() && |parts| == old(|parts|) && direct == old(direct) && spareWhole == old(spareWhole)
      ensures spare == old(spare)[i := old(spare)[i] - 1]
      ensures ret == 0 <==> a.found && (old(parts)[i].openers > 0 || (a.memory && w.found && w.driver == 0 && a.usable))
      ensures ret == 0 ==> parts[i].openers == old(parts)[i].openers + 1
      ensures ret != 0 ==> whole == old(whole) && diskRefs == old(diskRefs)
      ensures ret != 0 ==> parts == old(parts)[i := old(parts)[i].(refs := old(parts)[i].refs - 1)]
      ensures forall k | 0 <= k < |parts| && k != i :: parts[k] == old(parts)[k]
    {
      hide Openers; hide Open;
      NotNegative();
      if !a.found {
        DropRef(i);
        return -ENXIO;
      }
      if parts[i].openers == 0 {
        ret := FirstOpen(i, a, w);
        if ret != 0 {
          DropRef(i);
          return;
        }
      } else {
        var d := parts[i].(openers := parts[i].openers + 1);
        Updated(parts, i, d);
        whole := whole.(partCount := whole.partCount + 1);
        parts := parts[i := d];
        spare := spare[i := spare[i] - 1];
      }
      ret := 0;
    }

    // bdput after a failed open
    method DropRef(i: nat)
      requires Valid() && i < |parts| && spare[i] > 0
      modifies this`parts, this`spare
      ensures Valid() && spare == old(spare)[i := old(spare)[i] - 1]
      ensures parts == old(parts)[i := old(parts)[i].(refs := old(parts)[i].refs - 1)]
    {
      var d := parts[i].(refs := parts[i].refs - 1);
      Updated(parts, i, d);
      parts := parts[i := d];
      spare := spare[i := spare[i] - 1];
    }

    // the branch of do_open for the first opener of a partition; a failure undoes all
    // but the caller's reference
    method FirstOpen(i: nat, a: Answers, w: Answers) returns (ret: int)
      requires Valid() && i < |parts| && spare[i] > 0 && parts[i].openers == 0
      modifies this
      ensures Valid() && direct == old(direct) && spareWhole == old(spareWhole)
      ensures ret == 0 <==> a.memory && w.found && w.driver == 0 && a.usable
      ensures ret == 0 ==> parts == old(parts)[i := old(parts)[i].(openers := 1, contains := TheDisk, hasDisk := true)]
      ensures ret == 0 ==> spare == old(spare)[i := old(spare)[i] - 1]
      ensures ret != 0 ==> whole == old(whole) && diskRefs == old(diskRefs) && parts == old(parts) && spare == old(spare)
    {
      hide Openers; hide Open;
      NotNegative();
      diskRefs := diskRefs + 1;
      if !a.memory {
        diskRefs := diskRefs - 1;
        return -ENOMEM;
      }
      whole := whole.(refs := whole.refs + 1);
      ret := OpenWhole(w);
      if ret != 0 {
        diskRefs := diskRefs - 1;
        return;
      }
      whole := whole.(partCount := whole.partCount + 1);
      if !a.usable {
        whole := whole.(partCount := whole.partCount - 1);
        PutWhole();
        diskRefs := diskRefs - 1;
        return -ENXIO;
      }
      var d := parts[i].(openers := 1, contains := TheDisk, hasDisk := true);
      Updated(parts, i, d);
      parts := parts[i := d];
      spare := spare[i := spare[i] - 1];
    }

    // blkdev_put of partition i; the last one closes the disk too
    method ClosePart(i: nat)
      requires Valid() && i < |parts| && parts[i].openers > 0
      modifies this
      ensures Valid() && |parts| == old(|parts|) && direct == old(direct) && spareWhole == old(spareWhole) && spare == old(spare)
      ensures parts[i].openers == old(parts)[i].openers - 1
      ensures forall k | 0 <= k < |parts| && k != i :: parts[k] == old(parts)[k]
    {
      OpenBounds(parts, i);
      var d := parts[i].(openers := parts[i].openers - 1);
      whole := whole.(partCount := whole.partCount - 1);
      if d.openers == 0 {
        diskRefs := diskRefs - 1;
        d := d.(hasDisk := false, contains := Null);
        PutWhole();
      }
      d := d.(refs := d.refs - 1);
      Updated(parts, i, d);
      parts := parts[i := d];
    }

    lemma NotNegative()
      requires Valid()
      ensures Open(parts) >= 0 && Openers(parts) >= 0
    {
      if |parts| > 0 { OpenBounds(parts, 0); }
    }

    // the counts of a disk, at any time: who keeps it open, and the gendisk references
    lemma Accounts()
      requires Valid()
      ensures whole.partCount == Openers(parts) && whole.openers == direct + Open(parts)
      ensures diskRefs == Bit(whole.openers > 0) + Open(parts) && whole.hasDisk == (whole.openers > 0)
      ensures forall i | 0 <= i < |parts| :: parts[i].hasDisk == (parts[i].openers > 0)
      ensures whole.openers == 0 ==> diskRefs == 0 && forall i | 0 <= i < |parts| :: parts[i].openers == 0
    {
      NotNegative();
      if whole.openers == 0 {
        forall i | 0 <= i < |parts|
          ensures parts[i].openers == 0
        {
          OpenBounds(parts, i);
        }
      }
    }
  }

  lemma {:induction false} AllClosed(parts: seq<Bdev>)
    requires forall i | 0 <= i < |parts| :: parts[i].openers == 0
    ensures Openers(parts) == 0 && Open(parts) == 0
  {
    if parts != [] { AllClosed(parts[..|parts| - 1]); }
  }
}
