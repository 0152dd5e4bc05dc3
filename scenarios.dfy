/** Properties of the library that span several calls: two handles on one
    name, dropping owners and non-owners, reaching a mapping through its
    flink, and the shapes of the identifiers `create` picks. */
module Scenarios {
  import opened ShmErrors
  import opened Kernel
  import opened Unix
  import opened Config
  import opened Naming
  import opened Utf8
  import opened SharedMemory

  /** Opening by os_id: a missing name fails with ENOENT after one try; an
      existing, non-empty object opens on the first try when nothing fails. */
  lemma OpenByIdentifier(st: OsState, d: ShmemConf, env: seq<Faults>, steps: seq<Step>)
    requires st.Valid() && d.osId.Some? && Candidate(d, 0).Ok?
    ensures var id := Candidate(d, 0).value;
            var ns := BackingNs(d);
            id !in st.Names(ns) ==> OpenSpec(st, d, env, steps).0 == Err(MapOpenFailed(ENOENT))
    ensures var id := Candidate(d, 0).value;
            var ns := BackingNs(d);
            (id in st.Names(ns) && |st.objects[st.Names(ns)[id]]| > 0 && FaultsAt(env, 0) == NoFaults) ==>
              var (r, st2, n) := OpenSpec(st, d, env, steps);
              && r.Ok? && n == 1 && r.value.mapping.uniqueId == id
              && st2.maps[r.value.mapping.mapPtr].obj == st.Names(ns)[id]
  {
    var f := FaultsAt(env, 0);
    assert Target(st, d, f) == Candidate(d, 0);
    var (mr, st1) := OpenAttempt(st, d, f);
    assert OpenLoop(st, d, 0, env, steps).0.Ok? <==> mr.Ok?;
  }

  /** A second create of the same explicit os_id reports `MappingIdExists`
      and leaves everything, the first mapping included, as it was
      (lib.rs:210-215 with unix.rs:107-124 or 256-265). */
  lemma SecondCreateCollides(st: OsState, c: ShmemConf, ids: seq<U64>, f: Faults, ids2: seq<U64>, f2: Faults)
    requires st.Valid() && Buildable(c) && c.osId.Some? && c.flinkPath.None?
    requires CreateSpec(st, c, ids, f).0.Ok?
    ensures var st1 := CreateSpec(st, c, ids, f).1;
            SupplyAdequate(st1, c, ids2) && CreateSpec(st1, c, ids2, f2) == (Err(MappingIdExists), st1)
  {
    var (r1, st1) := CreateSpec(st, c, ids, f);
    CreateSuccess(st, c, ids, f);
    assert !CandidateFree(st1, c, 0);
  }

  /** Two mappings of the whole of one object: a store through the first
      is visible through the second. */
  lemma StoreVisibleThroughAlias(st: OsState, p1: nat, p2: nat, offset: nat, bytes: seq<Byte>)
    requires st.Valid() && p1 in st.maps && p2 in st.maps
    requires st.maps[p1] == st.maps[p2] && st.maps[p1].len == |st.objects[st.maps[p1].obj]|
    requires offset + |bytes| <= st.maps[p1].len
    ensures |st.View(p1)| == st.maps[p1].len
    ensures Store(st, p1, offset, bytes).View(p2)[offset..offset + |bytes|] == bytes
  {
    var obj := st.maps[p1].obj;
    var o := st.objects[obj];
    assert st.View(p1) == o;
    var st3 := Store(st, p1, offset, bytes);
    var o3 := o[..offset] + bytes + o[offset + |bytes|..];
    assert st3.objects[obj] == o3;
    assert st3.View(p2) == o3;
    assert o3[offset..offset + |bytes|] == bytes;
  }

  /** Two handles on one os_id, the creator's and an opener's, map the same
      object at different addresses: bytes stored through the first are
      what the second shows (tests/tmpfs.rs:176-204). */
  lemma ShareData(st: OsState, c: ShmemConf, ids: seq<U64>, f: Faults, d: ShmemConf, steps: seq<Step>,
                  offset: nat, bytes: seq<Byte>)
    requires st.Valid() && Buildable(c) && c.osId.Some? && c.flinkPath.None?
    requires d.osId == c.osId && d.useTmpfs == c.useTmpfs && d.tmpfsBaseDir == c.tmpfsBaseDir
    requires CreateSpec(st, c, ids, f).0.Ok?
    requires offset + |bytes| <= c.size
    ensures var (r1, st1) := CreateSpec(st, c, ids, f);
            var (r2, st2, n) := OpenSpec(st1, d, [], steps);
            && r2.Ok? && n == 1
            && r2.value.mapping.uniqueId == r1.value.mapping.uniqueId
            && r2.value.mapping.mapSize == c.size
            && var p1 := r1.value.mapping.mapPtr;
               var p2 := r2.value.mapping.mapPtr;
               && p1 != p2 && p1 in st2.maps && p2 in st2.maps
               && |st2.View(p1)| == c.size
               && Store(st2, p1, offset, bytes).View(p2)[offset..offset + |bytes|] == bytes
  {
    var (r1, st1) := CreateSpec(st, c, ids, f);
    CreateSuccess(st, c, ids, f);
    CreateZeroFills(st, c, ids, f);
    var m1 := r1.value.mapping;
    var obj := |st.objects|;
    assert Candidate(d, 0) == Candidate(c, 0);
    OpenByIdentifier(st1, d, [], steps);
    var (r2, st2, n) := OpenSpec(st1, d, [], steps);
    var m2 := r2.value.mapping;
    assert Opened(st1, st2, d, m2);
    assert st2.maps[m1.mapPtr] == Mapping(obj, c.size);
    assert st2.maps[m2.mapPtr] == Mapping(obj, c.size);
    StoreVisibleThroughAlias(st2, m1.mapPtr, m2.mapPtr, offset, bytes);
  }

  /** Once the owning handle is dropped its name is gone, so opening it by
      os_id fails (unix.rs:60-75, tests/tmpfs.rs:121-129). */
  lemma OwnerDropThenOpenFails(st: OsState, h: HandleInfo, d: ShmemConf, env: seq<Faults>, steps: seq<Step>)
    requires st.Valid() && Synced(h) && h.mapping.owner && h.mapping.mapFd != 0
    requires d.osId.Some? && Candidate(d, 0) == Ok(h.mapping.uniqueId) && BackingNs(d) == Backing(h.mapping)
    ensures OpenSpec(DropHandle(st, h), d, env, steps).0 == Err(MapOpenFailed(ENOENT))
  {
    OpenByIdentifier(DropHandle(st, h), d, env, steps);
  }

  /** Dropping a handle that does not own its mapping releases no name and
      no file: whatever could be opened before still opens
      (unix.rs:60-75, lib.rs:66-76). */
  lemma NonOwnerDropKeepsSegment(st: OsState, h: HandleInfo, d: ShmemConf, steps: seq<Step>)
    requires st.Valid() && Synced(h) && !h.mapping.owner
    requires d.osId.Some? && Candidate(d, 0).Ok?
    requires var id := Candidate(d, 0).value;
             id in st.Names(BackingNs(d)) && |st.objects[st.Names(BackingNs(d))[id]]| > 0
    ensures var st1 := DropHandle(st, h);
            && st1.shm == st.shm && st1.files == st.files && st1.objects == st.objects
            && OpenSpec(st1, d, [], steps).0.Ok?
  {
    var st1 := DropHandle(st, h);
    assert st1.Names(BackingNs(d)) == st.Names(BackingNs(d));
    OpenByIdentifier(st1, d, [], steps);
  }

  /** A flink written by create leads an opener to the same mapping on its
      first try (tests/tmpfs.rs:135-160): the file holds the identifier's
      UTF-8 bytes and reading them back gives the identifier. */
  lemma FlinkRoundTrip(st: OsState, c: ShmemConf, ids: seq<U64>, f: Faults, d: ShmemConf,
                       env: seq<Faults>, steps: seq<Step>)
    requires st.Valid() && SupplyAdequate(st, c, ids) && c.flinkPath.Some?
    requires d.osId.None? && d.flinkPath == c.flinkPath && d.useTmpfs == c.useTmpfs
    requires FaultsAt(env, 0) == NoFaults
    requires CreateSpec(st, c, ids, f).0.Ok?
    requires !(c.useTmpfs && c.overwriteFlink && c.flinkPath == Some(CreateSpec(st, c, ids, f).0.value.mapping.uniqueId))
    ensures var (r1, st1) := CreateSpec(st, c, ids, f);
            var (r2, st2, n) := OpenSpec(st1, d, env, steps);
            && r2.Ok? && n == 1
            && r2.value.mapping.uniqueId == r1.value.mapping.uniqueId
            && st2.maps[r2.value.mapping.mapPtr].obj == st2.maps[r1.value.mapping.mapPtr].obj
  {
    var (r1, st1) := CreateSpec(st, c, ids, f);
    CreateSuccess(st, c, ids, f);
    CreateZeroFills(st, c, ids, f);
    var id := r1.value.mapping.uniqueId;
    DecodeEncode(id);
    var g := FaultsAt(env, 0);
    assert Target(st1, d, g) == Ok(id);
    var (mr, st2) := OpenAttempt(st1, d, g);
    assert mr.Ok?;
  }

  /** Dropping the owning handle deletes its flink, so a later open through
      that flink fails at once with `LinkOpenFailed` (tests/tmpfs.rs:89-91,
      162-170). */
  lemma OwnerDropDeletesFlink(st: OsState, h: HandleInfo, d: ShmemConf, env: seq<Faults>, steps: seq<Step>)
    requires st.Valid() && Synced(h) && h.config.owner && h.config.flinkPath.Some?
    requires d.osId.None? && d.flinkPath == h.config.flinkPath
    ensures h.config.flinkPath.value !in DropHandle(st, h).files
    ensures var (r, _, n) := OpenSpec(DropHandle(st, h), d, env, steps);
            r == Err(LinkOpenFailed) && n == 1
  {
    var st1 := DropConf(st, h.config);
    assert h.config.flinkPath.value !in st1.files;
    assert DropHandle(st, h).files == Teardown(st1, h.mapping).files;
  }

  /** The flink race the retry loop exists for (lib.rs:324-329): the opener
      first reads a flink the creator has not written yet, the driver finds
      no such name, and after the sleep the second try reads the identifier
      and opens it. */
  lemma FlinkRace(st: OsState, d: ShmemConf, id: string)
    requires st.Valid() && d.osId.None? && d.flinkPath.Some?
    requires var path := d.flinkPath.value;
             var ns := BackingNs(d);
             && path in st.files && st.objects[st.files[path]] == []
             && "" !in st.Names(ns)
             && id in st.Names(ns) && |st.objects[st.Names(ns)[id]]| > 0
             && st.Names(ns)[id] != st.files[path]
    ensures var (r, _, n) := OpenSpec(st, d, [], [PutFile(d.flinkPath.value, Encode(id))]);
            r.Ok? && n == 2 && r.value.mapping.uniqueId == id
  {
    var path := d.flinkPath.value;
    var steps := [PutFile(path, Encode(id))];
    assert Decode([]) == Some([]);
    assert Target(st, d, NoFaults) == Ok("");
    var (mr, st1) := OpenAttempt(st, d, NoFaults);
    assert mr == Err(MapOpenFailed(ENOENT));
    var st2 := ApplyStep(st1, StepAt(steps, 0));
    DecodeEncode(id);
    assert st2.objects[st2.files[path]] == Encode(id);
    assert Target(st2, d, NoFaults) == Ok(id);
    assert OpenAttempt(st2, d, NoFaults).0.Ok?;
  }

  /** The identifiers create picks: a random shm name is `/shmem_<HEX>`, with
      one '/' (tests/tmpfs.rs:229-231); a tmpfs path lies under the base
      directory (tests/tmpfs.rs:57); an explicit os_id is used as given. */
  lemma CreatedIdentifierShape(st: OsState, c: ShmemConf, ids: seq<U64>, f: Faults)
    requires st.Valid() && SupplyAdequate(st, c, ids)
    ensures var (r, _) := CreateSpec(st, c, ids, f);
            r.Ok? ==>
              var id := r.value.mapping.uniqueId;
              && (!c.useTmpfs && c.osId.None? ==> id[0] == '/' && Count(id, '/') == 1)
              && (!c.useTmpfs && c.osId.Some? ==> id == c.osId.value)
              && (c.useTmpfs ==> c.tmpfsBaseDir.Some? && c.tmpfsBaseDir.value <= id)
  {
    var (r, _) := CreateSpec(st, c, ids, f);
    CreateSuccess(st, c, ids, f);
    if r.Ok? && !c.useTmpfs && c.osId.None? {
      var k :| 0 <= k < |ids| && Candidate(c, ids[k]) == Ok(r.value.mapping.uniqueId);
      RandomShmIdShape(ids[k], ids[k]);
    }
  }
}
