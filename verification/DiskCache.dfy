/** The write-through sector cache: a slab of entries, an LRU list of the entries in use, and a
    backing disk whose transfers may fail. */
module DiskCache {
  import opened Words
  import opened DiskLru

  type Sector = seq<u8>

  /** The sector count is a 32-bit word. */
  type Volume = s: seq<Sector> | |s| < TWO_32 witness []

  datatype Ioctl = CtrlInit | CtrlDeinit | Other

  /** The backing disk. A transfer that fails may stop part of the way through. */
  class Disk {
    var sectors: Volume
    var failures: nat  // transfers and controls that have returned an error

    method Read(buf: array<Sector>, offset: nat, start: nat, count: nat) returns (ok: bool)
      requires offset + count <= buf.Length
      modifies this`failures, buf
      ensures failures == old(failures) + (if ok then 0 else 1)
      ensures forall j | 0 <= j < buf.Length && !(offset <= j < offset + count) :: buf[j] == old(buf[j])
      ensures ok ==> start + count <= |sectors|
      ensures ok ==> forall j | offset <= j < offset + count :: buf[j] == sectors[start + (j - offset)]
    {
      var moved := 0;
      while moved < count
        invariant moved <= count
        invariant moved > 0 ==> start + moved <= |sectors|
        invariant failures == old(failures)
        invariant forall j | 0 <= j < buf.Length && !(offset <= j < offset + count) :: buf[j] == old(buf[j])
        invariant forall j | offset <= j < offset + moved :: buf[j] == sectors[start + (j - offset)]
      {
        var fault: bool := *;
        if fault || start + moved >= |sectors| {
          failures := failures + 1;
          return false;
        }
        buf[offset + moved] := sectors[start + moved];
        moved := moved + 1;
      }
      ok := start + count <= |sectors|;
      if !ok {
        failures := failures + 1;
      }
    }

    method Write(buf: array<Sector>, start: nat, count: nat) returns (ok: bool)
      requires count <= buf.Length
      modifies this
      ensures failures == old(failures) + (if ok then 0 else 1)
      ensures |sectors| == |old(sectors)|
      ensures forall s | 0 <= s < |sectors| && !(start <= s < start + count) :: sectors[s] == old(sectors)[s]
      ensures ok ==> start + count <= |sectors|
      ensures ok ==> forall s | start <= s < start + count :: sectors[s] == buf[s - start]
    {
      var moved := 0;
      while moved < count
        invariant moved <= count && |sectors| == |old(sectors)| && failures == old(failures)
        invariant moved > 0 ==> start + moved <= |sectors|
        invariant forall s | 0 <= s < |sectors| && !(start <= s < start + count) :: sectors[s] == old(sectors)[s]
        invariant forall s | start <= s < start + moved :: sectors[s] == buf[s - start]
      {
        var fault: bool := *;
        if fault || start + moved >= |sectors| {
          failures := failures + 1;
          return false;
        }
        sectors := sectors[start + moved := buf[moved]];
        moved := moved + 1;
      }
      ok := start + count <= |sectors|;
      if !ok {
        failures := failures + 1;
      }
    }
  }

  class Entry {
    var sector: nat
    var data: Sector

    constructor ()
    {
      sector, data := 0, [];
    }
  }

  /** Moving one element to the end keeps the elements, and keeps them apart. */
  lemma MovedToEnd(s: seq<Entry>, p: nat)
    requires p < |s| && forall i, j :: 0 <= i < j < |s| ==> s[i] != s[j]
    ensures var t := s[..p] + s[p + 1..] + [s[p]];
            && (forall e | e in s :: e in t) && (forall e | e in t :: e in s)
            && forall i, j :: 0 <= i < j < |t| ==> t[i] != t[j]
  {
  }

  class Cache {
    const disk: Disk
    const capacity: nat
    ghost const slab: set<Entry>
    var lru: seq<Entry>   // oldest first
    var free: seq<Entry>  // the slab's free list, last freed first

    /** Every slab entry is either free or listed, and is so exactly once. */
    ghost predicate Accounted()
      reads this
    {
      && 0 < capacity == |lru| + |free|
      && (forall e | e in lru :: e in slab && e !in free)
      && (forall e | e in free :: e in slab)
      && (forall e | e in slab :: e in lru || e in free)
      && (forall i, j :: 0 <= i < j < |lru| ==> lru[i] != lru[j])
      && (forall i, j :: 0 <= i < j < |free| ==> free[i] != free[j])
    }

    function Sectors(): (l: seq<nat>)
      reads this, slab
      requires Accounted()
      ensures |l| == |lru| && forall i | 0 <= i < |l| :: l[i] == lru[i].sector
    {
      seq(|lru|, i requires 0 <= i < |lru| && lru[i] in slab reads this, slab => lru[i].sector)
    }

    ghost function Listed(): set<Entry>
      reads this
    {
      set e | e in lru
    }

    /** The listed entry holds what the disk holds for its sector. */
    ghost predicate Agrees(e: Entry)
      reads e, disk
    {
      e.sector < |disk.sectors| && e.data == disk.sectors[e.sector]
    }

    ghost predicate Coherent()
      reads this, slab, disk
      requires Accounted()
    {
      forall e | e in lru :: Agrees(e)
    }

    ghost predicate Valid()
      reads this, slab, disk
      ensures Valid() ==> 0 < capacity && Accounted() && |Sectors()| <= capacity && Distinct(Sectors())
    {
      Accounted() && Distinct(Sectors()) && Coherent()
    }

    constructor (disk: Disk, capacity: nat)
      requires 0 < capacity
      ensures Valid() && this.disk == disk && this.capacity == capacity
      ensures fresh(slab) && Sectors() == []
    {
      this.disk, this.capacity := disk, capacity;
      var entries: seq<Entry> := [];
      while |entries| < capacity
        invariant |entries| <= capacity
        invariant forall e | e in entries :: fresh(e)
        invariant forall i, j :: 0 <= i < j < |entries| ==> entries[i] != entries[j]
      {
        var e := new Entry();
        entries := entries + [e];
      }
      lru, free, slab := [], entries, set e | e in entries;
    }

    method Flush()
      requires Accounted()
      modifies this`lru, this`free, slab
      ensures Valid() && Sectors() == [] && |free| == capacity
    {
      while |lru| > 0
        invariant Accounted()
      {
        var e := lru[0];
        assert e !in lru[1..];
        lru, free := lru[1..], [e] + free;
        e.sector := 0;
      }
    }

    method Lookup(sector: nat) returns (found: bool, entry: Entry?)
      requires Accounted()
      ensures found <==> sector in Sectors()
      ensures found <==> entry != null
      ensures entry != null ==> entry in Listed() && entry.sector == sector
    {
      var i := 0;
      while i < |lru|
        invariant i <= |lru|
        invariant forall j | 0 <= j < i :: Sectors()[j] != sector
      {
        if lru[i].sector == sector {
          assert Sectors()[i] == sector;
          return true, lru[i];
        }
        i := i + 1;
      }
      return false, null;
    }

    method Add(sector: nat, data: Sector)
      requires Valid() && sector !in Sectors()
      requires sector < |disk.sectors| && data == disk.sectors[sector]
      modifies this`lru, this`free, slab
      ensures Valid()
      ensures Sectors() == DiskLru.Add(old(Sectors()), capacity, sector)
      ensures old(Listed()) <= Listed()
      ensures forall e | e in slab && e in Listed() :: e.sector == sector || (e in old(Listed()) && e.sector == old(e.sector))
    {
      hide Distinct;
      assert Distinct(DiskLru.Add(Sectors(), capacity, sector)) by {
        AddKeepsDistinct(Sectors(), capacity, sector);
      }
      var entry: Entry;
      if |free| > 0 {
        entry := free[0];
        free := free[1..];
      } else {
        entry := lru[0];
        lru := lru[1..];
      }
      entry.sector := sector;
      entry.data := data;
      lru := lru + [entry];
      assert Sectors() == DiskLru.Add(old(Sectors()), capacity, sector);
    }

    lemma Holds(e: Entry)
      requires Valid() && e in Listed()
      ensures Agrees(e) && e.sector in Sectors()
    {
    }

    lemma BeyondTheDisk(s: nat)
      requires Valid() && s >= |disk.sectors|
      ensures s !in Sectors()
    {
      if s in Sectors() {
        var e := Holder(s);
      }
    }

    lemma Holder(s: nat) returns (e: Entry)
      requires Valid() && s in Sectors()
      ensures e in Listed() && e in slab && e.sector == s
    {
      var p :| 0 <= p < |lru| && Sectors()[p] == s;
      e := lru[p];
    }

    lemma OnlyHolder(e: Entry)
      requires Accounted() && Distinct(Sectors()) && e in Listed()
      ensures forall x | x in slab && x in Listed() && x.sector == e.sector :: x == e
    {
    }

    method MoveToEnd(p: nat)
      requires Accounted() && p < |lru|
      modifies this`lru
      ensures Accounted() && Listed() == old(Listed())
      ensures Sectors() == RemoveAt(old(Sectors()), p) + [old(lru)[p].sector]
    {
      MovedToEnd(lru, p);
      lru := lru[..p] + lru[p + 1..] + [lru[p]];
    }

    method Bump(entry: Entry)
      requires Valid() && entry in Listed()
      modifies this`lru
      ensures Valid() && Listed() == old(Listed())
      ensures Sectors() == Touch(old(Sectors()), capacity, entry.sector)
    {
      var p :| 0 <= p < |lru| && lru[p] == entry;
      assert Sectors()[p] == entry.sector;
      TouchAt(Sectors(), capacity, p);
      TouchInvariant(Sectors(), capacity, entry.sector);
      hide Accounted, Distinct, Touch;
      MoveToEnd(p);
      assert forall e | e in lru :: e in old(Listed());
    }

    /** Reads a run of missed sectors into the buffer with one transfer, then lists each of them. */
    method Populate(buf: array<Sector>, offset: nat, start: nat, count: nat) returns (ok: bool)
      requires Valid() && offset + count <= buf.Length
      requires NoneListed(Sectors(), start, count)
      modifies this`lru, this`free, slab, disk`failures, buf
      ensures Valid()
      ensures disk.failures == old(disk.failures) + (if ok then 0 else 1)
      ensures forall j | 0 <= j < buf.Length && !(offset <= j < offset + count) :: buf[j] == old(buf[j])
      ensures ok ==> start + count <= |disk.sectors|
      ensures ok ==>
        forall j | offset <= j < offset + count :: buf[j] == disk.sectors[start + (j - offset)]
      ensures Sectors() == if ok then AddRun(old(Sectors()), capacity, start, count) else old(Sectors())
      ensures old(Listed()) <= Listed()
      ensures forall e | e in slab && e in Listed() ::
                start <= e.sector < start + count || (e in old(Listed()) && e.sector == old(e.sector))
    {
      ok := disk.Read(buf, offset, start, count);
      if !ok {
        return;
      }
      AddAll(buf, offset, start, count);
    }

    method AddAll(buf: array<Sector>, offset: nat, start: nat, count: nat)
      requires Valid() && offset + count <= buf.Length && start + count <= |disk.sectors|
      requires NoneListed(Sectors(), start, count)
      requires forall j | offset <= j < offset + count :: buf[j] == disk.sectors[start + (j - offset)]
      modifies this`lru, this`free, slab
      ensures Valid()
      ensures Sectors() == AddRun(old(Sectors()), capacity, start, count)
      ensures old(Listed()) <= Listed()
      ensures forall e | e in slab && e in Listed() ::
                start <= e.sector < start + count || (e in old(Listed()) && e.sector == old(e.sector))
    {
      hide Valid, Accounted, Coherent, Distinct, NoneListed, DiskLru.Add, Listed;
      ghost var before := Sectors();
      var i := 0;
      while i < count
        invariant i <= count && Valid()
        invariant Sectors() == AddRun(before, capacity, start, i)
        invariant old(Listed()) <= Listed()
        invariant forall e | e in slab && e in Listed() ::
            start <= e.sector < start + i || (e in old(Listed()) && e.sector == old(e.sector))
      {
        MissedStaysMissed(before, capacity, start, count, i);
        Add(start + i, buf[offset + i]);
        i := i + 1;
      }
    }

    /** Flushes pending misses while holding on to an entry that was looked up before: the entry is
        still listed afterwards, but if its sector was pushed out it now holds one of the misses. */
    method PopulateBefore(buf: array<Sector>, offset: nat, start: nat, count: nat, ghost entry: Entry)
        returns (ok: bool)
      requires Valid() && offset + count <= buf.Length && entry in Listed()
      requires NoneListed(Sectors(), start, count)
      modifies this`lru, this`free, slab, disk`failures, buf
      ensures Valid() && entry in Listed()
      ensures disk.failures == old(disk.failures) + (if ok then 0 else 1)
      ensures forall j | 0 <= j < buf.Length && !(offset <= j < offset + count) :: buf[j] == old(buf[j])
      ensures ok ==> start + count <= |disk.sectors|
      ensures ok ==>
        forall j | offset <= j < offset + count :: buf[j] == disk.sectors[start + (j - offset)]
      ensures ok ==> Sectors() == AddRun(old(Sectors()), capacity, start, count)
      ensures ok ==> if old(entry.sector) in Sectors() then entry.sector == old(entry.sector)
                     else start <= entry.sector < start + count
    {
      assert !(start <= entry.sector < start + count) by {
        Holds(entry);
      }
      hide Valid, Accounted, Coherent, Distinct, Listed, NoneListed, AddRun;
      OnlyHolder(entry);
      ok := Populate(buf, offset, start, count);
      if old(entry.sector) in Sectors() {
        ghost var holder := Holder(old(entry.sector));
      } else {
        Holds(entry);
      }
    }

    /** The same, with no transfer if nothing is pending. */
    method FlushBefore(buf: array<Sector>, offset: nat, start: nat, count: nat, ghost entry: Entry)
        returns (ok: bool)
      requires Valid() && offset + count <= buf.Length && entry in Listed() && start < TWO_32
      requires NoneListed(Sectors(), start, count)
      modifies this`lru, this`free, slab, disk`failures, buf
      ensures Valid() && entry in Listed()
      ensures disk.failures == old(disk.failures) + (if ok then 0 else 1)
      ensures forall j | 0 <= j < buf.Length && !(offset <= j < offset + count) :: buf[j] == old(buf[j])
      ensures ok ==> start + count < TWO_32 && (count > 0 ==> start + count <= |disk.sectors|)
      ensures ok ==>
        forall j | offset <= j < offset + count :: buf[j] == disk.sectors[start + (j - offset)]
      ensures ok ==> Sectors() == AddRun(old(Sectors()), capacity, start, count)
      ensures ok ==> if old(entry.sector) in Sectors() then entry.sector == old(entry.sector)
                     else start <= entry.sector < start + count
    {
      if count == 0 {
        Holds(entry);
        return true;
      }
      hide Valid, Accounted, Coherent, Distinct, Listed, NoneListed, AddRun;
      ok := PopulateBefore(buf, offset, start, count, entry);
    }

    /** The hit branch: flush the pending misses, then copy out of the entry that was looked up
        before them, then bump it. */
    method ServeHit(buf: array<Sector>, entry: Entry, start: nat, flushed: nat, i: nat)
        returns (ok: bool)
      requires Valid() && entry in Listed() && entry.sector == Wrap32(start + i)
      requires flushed <= i < buf.Length && start + flushed < TWO_32 && NoneListed(Sectors(), start + flushed, i - flushed)
      modifies this`lru, this`free, slab, disk`failures, buf
      ensures Valid()
      ensures disk.failures == old(disk.failures) + (if ok then 0 else 1)
      ensures forall j | 0 <= j < buf.Length && !(flushed <= j <= i) :: buf[j] == old(buf[j])
      ensures ok ==> start + i < |disk.sectors|
      ensures ok ==> forall j | flushed <= j < i :: buf[j] == disk.sectors[start + j]
      ensures ok ==> entry.sector < |disk.sectors| && buf[i] == disk.sectors[entry.sector]
      ensures ok ==>
        var run := AddRun(old(Sectors()), capacity, start + flushed, i - flushed);
        if start + i in run
        then entry.sector == start + i && Sectors() == Touch(run, capacity, start + i)
        else start + flushed <= entry.sector < start + i
    {
      hide Valid, Accounted, Coherent, Distinct, Listed, NoneListed, Touch, AddRun;
      Holds(entry);
      ok := FlushBefore(buf, flushed, start + flushed, i - flushed, entry);
      if !ok {
        return;
      }
      Holds(entry);
      buf[i] := entry.data;
      Bump(entry);
    }

    /** What a read has achieved after flushing up to `flushed`: either everything is right so far and the
        list is the reference list, or the guard failed and slot `wrong` holds sector `other`. */
    ghost predicate SoFar(buf: array<Sector>, l: seq<nat>, start: nat, flushed: nat, i: nat, num: nat,
        wrong: int, other: nat)
      reads this, slab, disk, buf
      requires Accounted() && flushed <= i <= num <= buf.Length
    {
      && start + flushed < TWO_32 && (flushed > 0 ==> start + flushed <= |disk.sectors|)
      && (if wrong < 0
          then Right(buf, l, start, flushed, i, num)
          else Wrong(buf, l, start, flushed, num, wrong, other))
    }

    ghost predicate Right(buf: array<Sector>, l: seq<nat>, start: nat, flushed: nat, i: nat, num: nat)
      reads this, slab, disk, buf
      requires Accounted() && flushed <= i <= num <= buf.Length
      requires flushed > 0 ==> start + flushed <= |disk.sectors|
    {
      && OnTrack(l, capacity, start, flushed, i, num, Sectors())
      && forall j | 0 <= j < flushed :: buf[j] == disk.sectors[start + j]
    }

    ghost predicate Wrong(buf: array<Sector>, l: seq<nat>, start: nat, flushed: nat, num: nat, wrong: nat, other: nat)
      reads this, disk, buf
      requires Accounted() && flushed <= num <= buf.Length
      requires flushed > 0 ==> start + flushed <= |disk.sectors|
    {
      && wrong < flushed && start <= other < start + wrong
      && buf[wrong] == disk.sectors[other] && !Outlives(l, capacity, start, num)
    }

    method ReadHit(buf: array<Sector>, entry: Entry, start: nat, flushed: nat, i: nat, num: nat,
        ghost l: seq<nat>, ghost wrong: int, ghost other: nat)
        returns (ok: bool, ghost wrong': int, ghost other': nat)
      requires Valid() && entry in Listed() && entry.sector == Wrap32(start + i)
      requires flushed <= i < num <= buf.Length && NoneListed(Sectors(), start + flushed, i - flushed)
      requires |l| <= capacity && Distinct(l) && SoFar(buf, l, start, flushed, i, num, wrong, other)
      modifies this`lru, this`free, slab, disk`failures, buf
      ensures Valid()
      ensures disk.failures == old(disk.failures) + (if ok then 0 else 1)
      ensures forall j | num <= j < buf.Length :: buf[j] == old(buf[j])
      ensures ok ==> SoFar(buf, l, start, i + 1, i + 1, num, wrong', other')
    {
      hide Valid, Accounted, Coherent, Distinct, Outlives, OnTrack, NoneListed, Listed, AddRun, Touch, SoFar, Right, Wrong;
      wrong', other' := wrong, other;
      ghost var before := buf[..flushed];
      ghost var right := wrong < 0;
      SoFarMeans(buf, l, start, flushed, i, num, wrong, other);
      Holds(entry);
      if right && start + i < TWO_32 {
        StepOverHit(l, capacity, start, flushed, i, num, Sectors());
      }
      ok := ServeHit(buf, entry, start, flushed, i);
      if right && entry.sector != start + i {
        wrong', other' := i, entry.sector;
      }
      if ok {
        assert forall j | 0 <= j < flushed :: buf[j] == before[j];
        SoFarIs(buf, l, start, i + 1, i + 1, num, wrong', other');
      }
    }

    lemma SoFarMeans(buf: array<Sector>, l: seq<nat>, start: nat, flushed: nat, i: nat, num: nat, wrong: int, other: nat)
      requires Accounted() && flushed <= i <= num <= buf.Length && SoFar(buf, l, start, flushed, i, num, wrong, other)
      ensures start + flushed < TWO_32 && (flushed > 0 ==> start + flushed <= |disk.sectors|)
      ensures wrong < 0 ==>
                && OnTrack(l, capacity, start, flushed, i, num, Sectors())
                && forall j | 0 <= j < flushed :: buf[j] == disk.sectors[start + j]
      ensures wrong >= 0 ==>
                && wrong < flushed && start <= other < start + wrong
                && buf[wrong] == disk.sectors[other] && !Outlives(l, capacity, start, num)
    {
      hide Accounted, OnTrack, Outlives;
    }

    lemma SoFarIs(buf: array<Sector>, l: seq<nat>, start: nat, flushed: nat, i: nat, num: nat, wrong: int, other: nat)
      requires Accounted() && flushed <= i <= num <= buf.Length
      requires start + flushed < TWO_32 && (flushed > 0 ==> start + flushed <= |disk.sectors|)
      requires wrong < 0 ==>
                 && OnTrack(l, capacity, start, flushed, i, num, Sectors())
                 && forall j | 0 <= j < flushed :: buf[j] == disk.sectors[start + j]
      requires wrong >= 0 ==>
                 && wrong < flushed && start <= other < start + wrong
                 && buf[wrong] == disk.sectors[other] && !Outlives(l, capacity, start, num)
      ensures SoFar(buf, l, start, flushed, i, num, wrong, other)
    {
      hide Accounted, OnTrack, Outlives;
    }

    /** Sector numbers are 32-bit words. A range that runs past 2^32 looks up wrapped numbers, but fails:
        no disk holds sector 2^32 - 1, so flushing it is refused before a wrapped hit is copied. */
    method Read(buf: array<Sector>, start: u32, num: u32) returns (ok: bool)
      requires Valid() && num <= buf.Length
      modifies this`lru, this`free, slab, disk`failures, buf
      ensures Valid()
      ensures disk.failures == old(disk.failures) + (if ok then 0 else 1)
      ensures forall j | num <= j < buf.Length :: buf[j] == old(buf[j])
      ensures ok && num > 0 ==> start + num <= |disk.sectors|
      ensures ok && Outlives(old(Sectors()), capacity, start, num) ==>
                && (num > 0 ==> buf[..num] == disk.sectors[start..start + num])
                && Sectors() == TouchRun(old(Sectors()), capacity, start, num)
      ensures ok && !Outlives(old(Sectors()), capacity, start, num) ==>
                exists j, t | 0 <= j < num && start <= t < start + j :: buf[j] == disk.sectors[t]
    {
      hide Valid, Accounted, Coherent, Distinct, Outlives, OnTrack, NoneListed, Listed, AddRun, Touch, TouchRun, Sectors;
      ghost var l := Sectors();
      ghost var wrong, other := -1, 0;
      var flushed := 0;
      var i := 0;
      NothingScanned(l, capacity, start, num);
      while i < num
        invariant flushed <= i <= num && Valid() && disk.failures == old(disk.failures)
        invariant NoneListed(Sectors(), start + flushed, i - flushed)
        invariant forall j | num <= j < buf.Length :: buf[j] == old(buf[j])
        invariant SoFar(buf, l, start, flushed, i, num, wrong, other)
      {
        var sector := Wrap32(start + i);
        var found, entry := Lookup(sector);
        if found {
          ok, wrong, other := ReadHit(buf, entry, start, flushed, i, num, l, wrong, other);
          if !ok {
            return;
          }
          flushed := i + 1;
          NothingPending(Sectors(), start + flushed);
        } else {
          if start + i >= TWO_32 {
            BeyondTheDisk(start + i);
          }
          OneMorePending(Sectors(), start + flushed, i - flushed);
          if wrong < 0 {
            StepOverMiss(l, capacity, start, flushed, i, num, Sectors());
          }
        }
        i := i + 1;
      }
      if wrong < 0 {
        FlushTail(l, capacity, start, flushed, num, Sectors());
      }
      if flushed != num {
        ok := Populate(buf, flushed, start + flushed, num - flushed);
        if !ok {
          return;
        }
      }
      ok := true;
    }

    /** The same branch with the copy moved in front of the flush. */
    method ServeHitFirst(buf: array<Sector>, entry: Entry, start: nat, flushed: nat, i: nat)
        returns (ok: bool)
      requires Valid() && entry in Listed() && entry.sector == Wrap32(start + i)
      requires flushed <= i < buf.Length && start + flushed < TWO_32 && NoneListed(Sectors(), start + flushed, i - flushed)
      modifies this`lru, this`free, slab, disk`failures, buf
      ensures Valid()
      ensures disk.failures == old(disk.failures) + (if ok then 0 else 1)
      ensures forall j | 0 <= j < buf.Length && !(flushed <= j <= i) :: buf[j] == old(buf[j])
      ensures ok ==> start + i < |disk.sectors|
      ensures ok ==> forall j | flushed <= j <= i :: buf[j] == disk.sectors[start + j]
    {
      hide Valid, Accounted, Coherent, Distinct, Listed, NoneListed, Touch, AddRun;
      Holds(entry);
      buf[i] := entry.data;
      ok := FlushBefore(buf, flushed, start + flushed, i - flushed, entry);
      if !ok {
        return;
      }
      Bump(entry);
    }

    /** A read that copies each hit before it flushes needs no guard: it is right whenever the disk does
        not fail, for every cache content. */
    method ReadCopyingFirst(buf: array<Sector>, start: u32, num: u32) returns (ok: bool)
      requires Valid() && num <= buf.Length
      modifies this`lru, this`free, slab, disk`failures, buf
      ensures Valid()
      ensures disk.failures == old(disk.failures) + (if ok then 0 else 1)
      ensures forall j | num <= j < buf.Length :: buf[j] == old(buf[j])
      ensures ok && num > 0 ==> start + num <= |disk.sectors| && buf[..num] == disk.sectors[start..start + num]
    {
      hide Valid, Accounted, Coherent, Distinct, NoneListed, Listed, AddRun;
      var flushed := 0;
      var i := 0;
      NothingPending(Sectors(), start);
      while i < num
        invariant flushed <= i <= num && Valid() && disk.failures == old(disk.failures)
        invariant start + flushed < TWO_32
        invariant NoneListed(Sectors(), start + flushed, i - flushed)
        invariant forall j | num <= j < buf.Length :: buf[j] == old(buf[j])
        invariant flushed > 0 ==> start + flushed <= |disk.sectors|
        invariant forall j | 0 <= j < flushed :: buf[j] == disk.sectors[start + j]
      {
        var found, entry := Lookup(Wrap32(start + i));
        if found {
          ok := ServeHitFirst(buf, entry, start, flushed, i);
          if !ok {
            return;
          }
          flushed := i + 1;
          NothingPending(Sectors(), start + flushed);
        } else {
          if start + i >= TWO_32 {
            BeyondTheDisk(start + i);
          }
          OneMorePending(Sectors(), start + flushed, i - flushed);
        }
        i := i + 1;
      }
      if flushed != num {
        ok := Populate(buf, flushed, start + flushed, num - flushed);
        if !ok {
          return;
        }
      }
      ok := true;
    }

    /** Writes through to the disk, then refreshes the listed sectors. A write that fails leaves the
        cache alone, so its entries may be stale, but only for sectors the disk was changing. */
    method Write(buf: array<Sector>, start: u32, num: u32) returns (ok: bool)
      requires Valid() && num <= buf.Length
      modifies slab`data, disk
      ensures Accounted() && lru == old(lru) && Sectors() == old(Sectors())
      ensures disk.failures == old(disk.failures) + (if ok then 0 else 1)
      ensures ok ==> Valid() && start + num <= |disk.sectors| && disk.sectors[start..start + num] == buf[..num]
      ensures forall e | e in lru && !(start <= e.sector < start + num) :: Agrees(e)
      ensures disk.sectors == old(disk.sectors) ==> Valid()
      ensures |disk.sectors| == old(|disk.sectors|)
      ensures forall s | 0 <= s < |disk.sectors| && !(start <= s < start + num) ::
                disk.sectors[s] == old(disk.sectors)[s]
    {
      ok := disk.Write(buf, start, num);
      if !ok {
        return;
      }
      Refresh(buf, start, num);
    }

    method Refresh(buf: array<Sector>, start: nat, num: nat)
      requires Accounted() && Distinct(Sectors()) && num <= buf.Length
      requires start + num <= |disk.sectors| && disk.sectors[start..start + num] == buf[..num]
      requires forall e | e in lru :: e.sector < |disk.sectors|
      requires forall e | e in lru && !(start <= e.sector < start + num) :: Agrees(e)
      modifies slab`data
      ensures Valid()
    {
      var i := 0;
      while i < num
        invariant i <= num
        invariant forall e | e in lru && !(start + i <= e.sector < start + num) :: Agrees(e)
      {
        hide Accounted;
        var found, entry := Lookup(start + i);
        if found {
          OnlyHolder(entry);
          assert disk.sectors[start..start + num][i] == buf[..num][i];
          entry.data := buf[i];
        }
        i := i + 1;
      }
    }

    /** Device control. Initialising or releasing the disk empties the cache, which is what makes it
        safe to exchange the card in between. */
    method Control(cmd: Ioctl, sectorSizeMatches: bool) returns (ok: bool)
      requires Accounted()
      modifies this`lru, this`free, slab, disk`failures
      ensures Accounted()
      ensures ok && cmd != Other ==> Valid() && Sectors() == []
      ensures ok && cmd == CtrlInit ==> sectorSizeMatches
      ensures !ok || cmd == Other ==> lru == old(lru) && Sectors() == old(Sectors())
      ensures !ok ==> disk.failures > old(disk.failures) || (cmd == CtrlInit && !sectorSizeMatches)
      ensures old(Valid()) ==> Valid()
    {
      var fault: bool := *;
      if fault {
        disk.failures := disk.failures + 1;
        return false;
      }
      match cmd {
        case CtrlInit =>
          if !sectorSizeMatches {
            return false;
          }
          Flush();
        case CtrlDeinit =>
          Flush();
        case Other =>
      }
      ok := true;
    }
  }
}
