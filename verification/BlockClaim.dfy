// bd_claim and bd_release of fs/block_dev.c on a disk and its partitions, which
// are open, so that bd_contains is the disk.
module BlockClaim {
  import opened Basics

  type Holder = nat  // an address that is neither NULL nor that of bd_claim

  // bd_holder: NULL, the marker bd_claim, or a real holder
  datatype Held = Nobody | Marker | By(h: Holder)

  datatype Dev = Dev(holder: Held, holders: int)

  // sums over the partitions
  ghost function Claims(parts: seq<Dev>): int {
    if parts == [] then 0 else Claims(parts[..|parts| - 1]) + parts[|parts| - 1].holders
  }

  lemma {:induction false} ClaimsUpdate(parts: seq<Dev>, i: nat, d: Dev)
    requires i < |parts|
    ensures Claims(parts[i := d]) == Claims(parts) - parts[i].holders + d.holders
  {
    var n := |parts| - 1;
    if i == n {
      assert parts[i := d][..n] == parts[..n];
    } else {
      assert parts[i := d][..n] == parts[..n][i := d];
      ClaimsUpdate(parts[..n], i, d);
    }
  }

  lemma {:induction false} ClaimsPositive(parts: seq<Dev>, i: nat)
    requires i < |parts| && forall k | 0 <= k < |parts| :: parts[k].holders >= 0
    ensures Claims(parts) >= parts[i].holders
  {
    var n := |parts| - 1;
    if i < n { ClaimsPositive(parts[..n], i); } else { ClaimsNonneg(parts[..n]); }
  }

  lemma {:induction false} ClaimsNonneg(parts: seq<Dev>)
    requires forall k | 0 <= k < |parts| :: parts[k].holders >= 0
    ensures Claims(parts) >= 0
  {
    if parts != [] { ClaimsNonneg(parts[..|parts| - 1]); }
  }

  // the decision of bd_claim about device d, contained in disk
  function Decide(d: Dev, disk: Dev, isDisk: bool, h: Holder): int {
    if d.holder == By(h) then 0
    else if d.holder != Nobody then -EBUSY
    else if isDisk then 0
    else if disk.holder == Marker then 0
    else if disk.holder != Nobody then -EBUSY
    else 0
  }

  // one claim less; the last one clears the holder
  function Dropped(d: Dev): Dev {
    Dev(if d.holders - 1 == 0 then Nobody else d.holder, d.holders - 1)
  }

  class Disk {
    var whole: Dev
    var parts: seq<Dev>

    // the claims in force and not yet released, by holder: of the disk, of each partition
    ghost var own: multiset<Holder>
    ghost var held: seq<multiset<Holder>>

    ghost predicate Valid()
      reads this
    {
      && |held| == |parts|
      // every claim of a device is by the holder it names, and is counted
      && (forall i | 0 <= i < |parts| :: parts[i].holders == |held[i]| && Names(parts[i].holder, held[i]))
      && whole.holders == 2 * |own| + Claims(parts)
      && (if own != multiset{} then Names(whole.holder, own)
          else whole.holder == if Claims(parts) == 0 then Nobody else Marker)
      // a held disk has no held partition
      && (own != multiset{} ==> forall i | 0 <= i < |parts| :: held[i] == multiset{})
    }

    constructor (n: nat)
      ensures Valid() && |parts| == n
    {
      whole := Dev(Nobody, 0);
      parts := seq(n, _ => Dev(Nobody, 0));
      own := multiset{};
      held := seq(n, _ => multiset{});
      new;
      NoClaims(parts);
    }

    // bd_claim on the disk; contains is the device itself
    method ClaimDisk(h: Holder) returns (res: int)
      requires Valid()
      modifies this
      ensures Valid() && held == old(held) && parts == old(parts)
      ensures res == 0 || res == -EBUSY
      ensures res == 0 <==> (forall g | g in old(own) :: g == h) && (forall i | 0 <= i < |held| :: old(held)[i] == multiset{})
      ensures own == if res == 0 then old(own) + multiset{h} else old(own)
      ensures res != 0 ==> whole == old(whole)
    {
      hide Decide; hide Claims;
      res := Decide(whole, whole, true, h);
      DecideDisk(h);
      if res == 0 {
        whole := whole.(holders := whole.holders + 1);
        whole := whole.(holder := Marker);
        whole := whole.(holders := whole.holders + 1);
        whole := whole.(holder := By(h));
        own := own + multiset{h};
      }
    }

    // bd_claim on partition i; contains is the disk
    method ClaimPart(i: nat, h: Holder) returns (res: int)
      requires Valid() && i < |parts|
      modifies this
      ensures Valid() && own == old(own) && |parts| == old(|parts|)
      ensures res == 0 || res == -EBUSY
      ensures res == 0 <==> own == multiset{} && forall g | g in old(held)[i] :: g == h
      ensures held == if res == 0 then old(held)[i := old(held)[i] + multiset{h}] else old(held)
      ensures res != 0 ==> whole == old(whole) && parts == old(parts)
    {
      hide Decide; hide Claims;
      res := Decide(parts[i], whole, false, h);
      DecidePart(i, h);
      if res == 0 {
        ClaimsNonneg(parts);
        whole := whole.(holders := whole.holders + 1);
        whole := whole.(holder := Marker);
        var d := Dev(By(h), parts[i].holders + 1);
        ClaimsUpdate(parts, i, d);
        parts := parts[i := d];
        held := held[i := held[i] + multiset{h}];
      }
    }

    lemma DecideDisk(h: Holder)
      requires Valid()
      ensures Decide(whole, whole, true, h) == 0
        <==> (forall g | g in own :: g == h) && (forall i | 0 <= i < |held| :: held[i] == multiset{})
      ensures Decide(whole, whole, true, h) == 0 || Decide(whole, whole, true, h) == -EBUSY
    {
      hide Claims;
      NoneHeld();
      if own != multiset{} { var g :| g in own; }
    }

    lemma DecidePart(i: nat, h: Holder)
      requires Valid() && i < |parts|
      ensures Decide(parts[i], whole, false, h) == 0 <==> own == multiset{} && forall g | g in held[i] :: g == h
      ensures Decide(parts[i], whole, false, h) == 0 || Decide(parts[i], whole, false, h) == -EBUSY
    {
      hide Claims;
      if held[i] != multiset{} { var g :| g in held[i]; }
    }

    // bd_release of one of the claims of the disk
    method ReleaseDisk(ghost h: Holder)
      requires Valid() && h in own
      modifies this
      ensures Valid() && own == old(own) - multiset{h} && held == old(held) && parts == old(parts)
    {
      NoneHeld();
      whole := Dropped(whole);
      whole := Dropped(whole);
      own := own - multiset{h};
    }

    // bd_release of one of the claims of partition i
    method ReleasePart(i: nat, ghost h: Holder)
      requires Valid() && i < |parts| && h in held[i]
      modifies this
      ensures Valid() && own == old(own) && held == old(held)[i := old(held)[i] - multiset{h}]
    {
      NoneHeld();
      whole := Dropped(whole);
      var d := Dropped(parts[i]);
      ClaimsUpdate(parts, i, d);
      parts := parts[i := d];
      held := held[i := held[i] - multiset{h}];
    }

    // no device has two holders, a held disk has no held partition, and bd_holders of
    // the disk counts its own claims twice and those of its partitions once
    lemma Exclusive()
      requires Valid()
      ensures whole.holders == 2 * |own| + Claims(parts)
      ensures forall i | 0 <= i < |parts| :: parts[i].holders == |held[i]|
      ensures forall g, h | g in own && h in own :: g == h
      ensures forall i, g, h | 0 <= i < |held| && g in held[i] && h in held[i] :: g == h
      ensures forall i, g, h | 0 <= i < |held| && g in held[i] :: h !in own
    {
    }

    lemma NoneHeld()
      requires Valid()
      ensures Claims(parts) >= 0
      ensures Claims(parts) == 0 <==> forall i | 0 <= i < |parts| :: held[i] == multiset{}
    {
      ClaimsNonneg(parts);
      if Claims(parts) == 0 {
        forall i | 0 <= i < |parts|
          ensures held[i] == multiset{}
        {
          ClaimsPositive(parts, i);
        }
      }
      if forall i | 0 <= i < |parts| :: held[i] == multiset{} { NoClaims(parts); }
    }
  }

  // the holder field of a device with these claims: one name for all of them
  ghost predicate Names(holder: Held, claims: multiset<Holder>) {
    if claims == multiset{} then holder == Nobody
    else holder.By? && forall h | h in claims :: h == holder.h
  }

  lemma {:induction false} NoClaims(parts: seq<Dev>)
    requires forall i | 0 <= i < |parts| :: parts[i].holders == 0
    ensures Claims(parts) == 0
  {
    if parts != [] { NoClaims(parts[..|parts| - 1]); }
  }
}
