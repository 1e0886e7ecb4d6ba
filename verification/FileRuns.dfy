/** Any sequence of cached reads, writes, flushes, evictions, purges and paging: what a
    reader gets is what an array of bytes that remembers its writes would give. */
module FileRuns {
  import opened Lists
  import opened VacbCache
  import opened VacbTable
  import opened FlatFile
  import opened PurgeRanges
  import opened FileCache

  // ----- The reference: what happened to the bytes ----------------------------------------------

  /** Bytes stored, pages that went to disk, and bytes that fell back to the disk. */
  datatype Event =
    | Stores(f: nat, lo: nat, data: seq<Byte>)
    | Flushes(f: nat, pieces: seq<Piece>)
    | Drops(r: Range)

  /** The byte a reader sees after the events: the last one stored there, unless it was
      dropped since; then what the disk had at that time. */
  ghost function ByteAt(x: map<nat, Mm>, events: seq<Event>, f: nat, i: nat): Byte
    requires f in x
    decreases |events|
  {
    if events == [] then Content(x[f], i)
    else
      var before, e := events[..|events| - 1], events[|events| - 1];
      match e
      case Stores(g, lo, data) => if g == f && lo <= i < lo + |data| then data[i - lo] else ByteAt(x, before, f, i)
      case Flushes(_, _) => ByteAt(x, before, f, i)
      case Drops(r) => if r.f == f && InRange(r, i) then DiskByteAt(x, before, f, i) else ByteAt(x, before, f, i)
  }

  /** The byte on disk after the events: what a reader saw when it was last flushed. */
  ghost function DiskByteAt(x: map<nat, Mm>, events: seq<Event>, f: nat, i: nat): Byte
    requires f in x
    decreases |events|
  {
    if events == [] then OnDisk(x[f], i)
    else
      var before, e := events[..|events| - 1], events[|events| - 1];
      match e
      case Stores(_, _, _) => DiskByteAt(x, before, f, i)
      case Flushes(g, pieces) => if g == f && Sent(pieces, i) then ByteAt(x, before, f, i) else DiskByteAt(x, before, f, i)
      case Drops(_) => DiskByteAt(x, before, f, i)
  }

  /** The files `y` are what the events made of the files `x`. */
  ghost predicate Replays(x: map<nat, Mm>, events: seq<Event>, y: map<nat, Mm>) {
    && x.Keys == y.Keys
    && (forall f, i: nat :: f in x ==> Content(y[f], i) == ByteAt(x, events, f, i))
    && (forall f, i: nat :: f in x ==> OnDisk(y[f], i) == DiskByteAt(x, events, f, i))
  }

  lemma ReplayNothing(x: map<nat, Mm>)
    ensures Replays(x, [], x)
  {
  }

  lemma ReplayKept(x: map<nat, Mm>, events: seq<Event>, y: map<nat, Mm>, z: map<nat, Mm>)
    requires Replays(x, events, y) && SameContent(y, z) && SameDisk(y, z)
    ensures Replays(x, events, z)
  {
    hide Content, OnDisk, ByteAt, DiskByteAt;
  }

  lemma LastEvent(events: seq<Event>, e: Event)
    ensures (events + [e])[..|events + [e]| - 1] == events && (events + [e])[|events + [e]| - 1] == e
  {
  }

  lemma ReplayStored(x: map<nat, Mm>, events: seq<Event>, y: map<nat, Mm>, z: map<nat, Mm>, f: nat, lo: nat, data: seq<Byte>)
    requires Replays(x, events, y) && Wrote(y, z, f, lo, data) && SameDisk(y, z)
    ensures Replays(x, events + [Stores(f, lo, data)], z)
  {
    hide Content, OnDisk;
    LastEvent(events, Stores(f, lo, data));
  }

  lemma ReplayFlushed(x: map<nat, Mm>, events: seq<Event>, y: map<nat, Mm>, z: map<nat, Mm>, f: nat, pieces: seq<Piece>)
    requires Replays(x, events, y) && SameContent(y, z) && DiskGets(y, z, f, pieces)
    ensures Replays(x, events + [Flushes(f, pieces)], z)
  {
    hide Content, OnDisk, Sent;
    LastEvent(events, Flushes(f, pieces));
    forall g, i: nat | g in x ensures OnDisk(z[g], i) == DiskByteAt(x, events + [Flushes(f, pieces)], g, i) {
      if g == f {
        assert OnDisk(z[f], i) == DiskAfter(y[f], pieces, i);
      }
    }
  }

  lemma ReplayDropped(x: map<nat, Mm>, events: seq<Event>, y: map<nat, Mm>, z: map<nat, Mm>, r: Range)
    requires Replays(x, events, y) && Discards(y, z, r) && SameDisk(y, z)
    ensures Replays(x, events + [Drops(r)], z)
  {
    hide Content, OnDisk;
    LastEvent(events, Drops(r));
  }

  // ----- Operations -------------------------------------------------------------------------------

  datatype Op =
    | Read(f: nat, off: nat, n: nat)
    | Write(f: nat, off: nat, data: seq<Byte>, through: bool)
    | Flush(f: nat, range: Option<(nat, nat)>, size: nat)
    | Trim(target: nat)
    | FreeOne
    | PageOut(f: nat, gone: set<nat>)
    | PageWrite(f: nat, lo: nat, n: nat)
    | Purge(f: nat, range: Option<(nat, nat)>)

  /** What memory and Mm answer during an operation; `used` are the pages that are mapped
      somewhere or being read. */
  datatype Env = Env(luck: nat -> Luck, flushes: nat -> Answer, used: nat -> bool)

  /** `bytes` is what a read returned, `count` how many bytes a write put in. */
  datatype Outcome = Outcome(ok: bool, bytes: seq<Byte>, count: nat)

  /** A write stays inside the section; a file's size is a 64-bit offset. */
  predicate Allowed(sections: map<nat, nat>, op: Op) {
    match op
    case Write(f, off, data, _) => f in sections && off + |data| <= MAXLONGLONG ==> off + |data| <= sections[f]
    case Flush(_, _, size) => size <= MAXLONGLONG
    case _ => true
  }

  /** What the operation did: the bytes it returned are those of the array before it, and its
      events are its own.  An operation on a file that is not cached does nothing; one that
      finds the memory and the answers it needs succeeds.  `held` are the views somebody else
      holds. */
  ghost predicate Explains(x: map<nat, Mm>, sections: map<nat, nat>, held: multiset<nat>, env: Env, op: Op, out: Outcome,
                           before: seq<Event>, events: seq<Event>) {
    match op
    case Read(f, off, n) =>
      && events == [] && (f !in x ==> !out.ok)
      && (f in x ==> |out.bytes| <= n && (out.ok <==> |out.bytes| == n) && (Lucky(env) ==> out.ok))
      && (f in x ==> forall i :: 0 <= i < |out.bytes| ==> out.bytes[i] == ByteAt(x, before, f, off + i))
    case Write(f, off, data, through) =>
      if f !in x then events == [] && !out.ok
      else
        && out.count <= |data| && (out.ok <==> out.count == |data| && off + |data| <= MAXLONGLONG)
        && (Lucky(env) && off + |data| <= MAXLONGLONG ==> out.ok)
        && |events| == 2 && events[0] == Stores(f, off, data[..out.count])
        && events[1].Flushes? && events[1].f == f && Tidy(events[1].pieces, off, off + |data|)
        && Answers(events[1].pieces, env.flushes)
        && (if through && out.ok then
              AllGranted(env.flushes) ==> forall i: nat :: off <= i < off + |data| ==> Asked(events[1].pieces, i)
            else events[1].pieces == [])
    case Flush(f, range, size) =>
      if f !in x then events == [] && !out.ok
      else
        var (start, n) := if range.Some? then range.value else (0, size);
        && |events| == 1 && events[0].Flushes? && events[0].f == f && Tidy(events[0].pieces, start, start + n)
        && Answers(events[0].pieces, env.flushes)
        && (out.ok ==> forall i: nat :: start <= i < start + n ==> Asked(events[0].pieces, i))
        && (AllGranted(env.flushes) && start + n <= MAXLONGLONG ==> out.ok)
    case Trim(_) => events == []
    case FreeOne => events == []
    case PageOut(_, _) => events == []
    case PageWrite(f, lo, n) => events == if f in x then [Flushes(f, [Piece(lo, n, env.flushes(0).bad)])] else []
    case Purge(f, range) =>
      if f !in x || f !in sections then events == [] && !out.ok
      else
        var r := PurgeRange(f, range, sections[f]);
        && |events| == 1 && events[0].Drops?
        && exists refused ::
             && (refused ==> held != multiset{}) && PurgeDrops(r, env.used, refused, events[0].r)
             && (out.ok <==> !refused && !Overflows(range) && NoneUsed(env.used, r.start, r.end))
  }

  /** There is memory for every view, and it can be mapped at once. */
  ghost predicate Lucky(env: Env) {
    forall k :: env.luck(k).memory && env.luck(k).maps(0)
  }

  /** The pages from the start of the range up to the first one in use go, or none if Cc has
      met a view in use. */
  predicate PurgeDrops(r: Range, used: nat -> bool, refused: bool, gone: Range) {
    gone.f == r.f && gone.start == Page(r.start) && gone.end == if refused then gone.start else StopOf(r, used)
  }

  method DoRead(c: CachedFiles, f: nat, off: nat, n: nat, env: Env, ghost x: map<nat, Mm>, ghost before: seq<Event>)
    returns (out: Outcome)
    requires c.Valid() && Replays(x, before, c.files)
    modifies c, c.cache
    ensures c.Valid() && Replays(x, before, c.files) && (old(c.Tracks()) ==> c.Tracks()) && c.cache.held == old(c.cache.held)
    ensures Explains(x, c.sections, old(c.cache.held), env, Read(f, off, n), out, before, [])
  {
    hide Inv, Coherent, Content, OnDisk, Tracked, Bounded, ByteAt, DiskByteAt, SameContent, SameDisk;
    KeysOf(x, before, c.files);
    if f !in c.files {
      return Outcome(false, [], 0);
    }
    ghost var y := c.files;
    var ok, bytes := c.CopyRead(f, off, n, env.luck);
    ReplayKept(x, before, y, c.files);
    out := Outcome(ok, bytes, 0);
  }

  method DoWrite(c: CachedFiles, f: nat, off: nat, data: seq<Byte>, through: bool, env: Env,
                 ghost x: map<nat, Mm>, ghost before: seq<Event>)
    returns (out: Outcome, ghost events: seq<Event>)
    requires c.Valid() && Replays(x, before, c.files) && Allowed(c.sections, Write(f, off, data, through))
    modifies c, c.cache
    ensures c.Valid() && Replays(x, before + events, c.files) && (old(c.Tracks()) && AllWritten(env.flushes) ==> c.Tracks())
    ensures c.cache.held == old(c.cache.held)
    ensures Explains(x, c.sections, old(c.cache.held), env, Write(f, off, data, through), out, before, events)
  {
    hide Inv, Coherent, Content, OnDisk, Tracked, Bounded, ByteAt, DiskByteAt, SameContent, SameDisk, Wrote, DiskGets, DirtyAt, Tidy, Asked;
    if f !in c.files {
      assert before + [] == before;
      KeysOf(x, before, c.files);
      return Outcome(false, [], 0), [];
    }
    KeysOf(x, before, c.files);
    ghost var y := c.files;
    var ok, count;
    ghost var written, log;
    ok, count, written, log := c.CopyWrite(f, off, data, through, env.luck, env.flushes);
    ghost var store := Stores(f, off, data[..count]);
    ReplayStored(x, before, y, written, f, off, data[..count]);
    ReplayFlushed(x, before + [store], written, c.files, f, log);
    events := [store, Flushes(f, log)];
    assert before + events == before + [store] + [Flushes(f, log)];
    out := Outcome(ok, [], count);
  }

  method DoFlush(c: CachedFiles, f: nat, range: Option<(nat, nat)>, size: nat, env: Env,
                 ghost x: map<nat, Mm>, ghost before: seq<Event>)
    returns (out: Outcome, ghost events: seq<Event>)
    requires c.Valid() && Replays(x, before, c.files) && size <= MAXLONGLONG
    modifies c, c.cache
    ensures c.Valid() && Replays(x, before + events, c.files) && (old(c.Tracks()) && AllWritten(env.flushes) ==> c.Tracks())
    ensures c.cache.held == old(c.cache.held)
    ensures Explains(x, c.sections, old(c.cache.held), env, Flush(f, range, size), out, before, events)
  {
    hide Inv, Coherent, Content, OnDisk, Tracked, Bounded, ByteAt, DiskByteAt, SameContent, DiskGets, NoDirtyView, NoneDirtied, Tidy;
    hide Asked;
    KeysOf(x, before, c.files);
    if f !in c.files {
      assert before + [] == before;
      return Outcome(false, [], 0), [];
    }
    ghost var y := c.files;
    var ok;
    ghost var log;
    ok, log := c.FlushCache(f, range, size, env.flushes);
    ReplayFlushed(x, before, y, c.files, f, log);
    events := [Flushes(f, log)];
    out := Outcome(ok, [], 0);
  }

  lemma RefusedHeld(x: State, r: Range)
    ensures Refused(x, r) ==> x.held != multiset{}
  {
  }

  /** Mm writes dirty pages of its own accord. */
  method DoPageWrite(c: CachedFiles, f: nat, lo: nat, n: nat, env: Env, ghost x: map<nat, Mm>, ghost before: seq<Event>)
    returns (ghost events: seq<Event>)
    requires c.Valid() && Replays(x, before, c.files)
    modifies c, c.cache
    ensures c.Valid() && Replays(x, before + events, c.files) && (old(c.Tracks()) ==> c.Tracks()) && c.cache.held == old(c.cache.held)
    ensures Explains(x, c.sections, old(c.cache.held), env, PageWrite(f, lo, n), Outcome(true, [], 0), before, events)
  {
    hide Inv, Coherent, Content, OnDisk, Tracked, Bounded, ByteAt, DiskByteAt, SameContent, DiskGets, Flushed, Replays;
    KeysOf(x, before, c.files);
    assert before + [] == before;
    events := [];
    if f in c.files {
      ghost var y := c.files;
      var p := Piece(lo, n, env.flushes(0).bad);
      FlushedSame(y, f, p);
      GetsNothing(y, f);
      SameItself(y);
      DiskMore(y, y, f, [], p);
      c.FlushPiece(f, p);
      assert [] + [p] == [p];
      ReplayFlushed(x, before, y, c.files, f, [p]);
      events := [Flushes(f, [p])];
    }
  }

  method DoPurge(c: CachedFiles, f: nat, range: Option<(nat, nat)>, env: Env, ghost x: map<nat, Mm>, ghost before: seq<Event>)
    returns (out: Outcome, ghost events: seq<Event>)
    requires c.Valid() && Replays(x, before, c.files)
    modifies c, c.cache
    ensures c.Valid() && Replays(x, before + events, c.files) && c.cache.held == old(c.cache.held)
    ensures old(c.Tracks()) && (out.ok || f !in c.sections) ==> c.Tracks()
    ensures Explains(x, c.sections, old(c.cache.held), env, Purge(f, range), out, before, events)
  {
    hide Inv, Coherent, Content, OnDisk, Tracked, Bounded, ByteAt, DiskByteAt;
    hide SameDisk, Discards, Refused, Takes, Touches, LosesTrack, NoneUsed, StopOf, Page;
    KeysOf(x, before, c.files);
    assert before + [] == before;
    if f !in c.files {
      return Outcome(false, [], 0), [];
    }
    ghost var y := c.files;
    ghost var r := PurgeRange(f, range, c.sections[f]);
    ghost var gone := Gone(c.cache.View(), r, env.used);
    ghost var refused := Refused(c.cache.View(), r);
    RefusedHeld(c.cache.View(), r);
    assert PurgeDrops(r, env.used, refused, gone);
    var ok := c.PurgeSection(f, range, env.used);
    ReplayDropped(x, before, y, c.files, gone);
    events := [Drops(gone)];
    out := Outcome(ok, [], 0);
    assert PurgeDrops(r, env.used, refused, events[0].r);
  }

  lemma KeysOf(x: map<nat, Mm>, events: seq<Event>, y: map<nat, Mm>)
    requires Replays(x, events, y)
    ensures x.Keys == y.Keys
  {
  }

  /** One operation, whichever. */
  method Do(c: CachedFiles, op: Op, env: Env, ghost x: map<nat, Mm>, ghost before: seq<Event>)
    returns (out: Outcome, ghost events: seq<Event>)
    requires c.Valid() && Replays(x, before, c.files) && Allowed(c.sections, op)
    modifies c, c.cache
    ensures c.Valid() && Replays(x, before + events, c.files) && c.cache.held == old(c.cache.held)
    ensures old(c.Tracks()) && Sound(c.sections, env, op, out) ==> c.Tracks()
    ensures Explains(x, c.sections, old(c.cache.held), env, op, out, before, events)
  {
    hide Inv, Coherent, Content, OnDisk, Tracked, Bounded, SameContent, SameDisk;
    hide Replays;
    events := [];
    out := Outcome(true, [], 0);
    assert before + [] == before;
    ghost var y := c.files;
    match op {
      case Read(f, off, n) =>
        out := DoRead(c, f, off, n, env, x, before);
      case Write(f, off, data, through) =>
        out, events := DoWrite(c, f, off, data, through, env, x, before);
      case Flush(f, range, size) =>
        out, events := DoFlush(c, f, range, size, env, x, before);
      case Trim(target) =>
        var credited := c.Trim(target);
      case FreeOne =>
        var freed := c.FreeOne();
      case PageOut(f, gone) =>
        if f in c.files {
          c.PageOut(f, gone);
          ReplayKept(x, before, y, c.files);
        }
      case PageWrite(f, lo, n) =>
        events := DoPageWrite(c, f, lo, n, env, x, before);
      case Purge(f, range) =>
        out, events := DoPurge(c, f, range, env, x, before);
    }
  }

  // ----- Runs ------------------------------------------------------------------------------------------

  ghost function Flat(log: seq<seq<Event>>): seq<Event> {
    if log == [] then [] else Flat(log[..|log| - 1]) + log[|log| - 1]
  }

  /** What loses track of dirty bytes: a purge that fails, and a page Mm cannot write. */
  ghost predicate Sound(sections: map<nat, nat>, env: Env, op: Op, out: Outcome) {
    && AllWritten(env.flushes)
    && (op.Purge? ==> out.ok || op.f !in sections)
  }

  /** Any sequence of operations on the cached files, whatever memory and Mm answer.  Every
      read returns, byte for byte, what the array holds after the operations before it; in
      the end the files are what all of them made of it; and as long as no purge failed, and
      no write of a page, every byte Mm still has to write lies under a dirty view. */
  method Perform(c: CachedFiles, ops: seq<Op>, env: nat -> Env) returns (outs: seq<Outcome>, ghost log: seq<seq<Event>>)
    requires c.Valid() && forall k :: 0 <= k < |ops| ==> Allowed(c.sections, ops[k])
    modifies c, c.cache
    ensures c.Valid() && |outs| == |log| == |ops| && c.cache.held == old(c.cache.held)
    ensures forall k :: 0 <= k < |ops| ==> Explains(old(c.files), c.sections, old(c.cache.held), env(k), ops[k], outs[k], Flat(log[..k]), log[k])
    ensures Replays(old(c.files), Flat(log), c.files)
    ensures old(c.Tracks()) && (forall k :: 0 <= k < |ops| ==> Sound(c.sections, env(k), ops[k], outs[k])) ==> c.Tracks()
  {
    hide Inv, Coherent, Tracked, Bounded, Replays, Explains, Allowed, Flat;
    outs, log := [], [];
    ReplayNothing(c.files);
    FlatMore([], []);
    for k := 0 to |ops|
      invariant c.Valid() && |outs| == |log| == k && c.cache.held == old(c.cache.held)
      invariant forall j :: 0 <= j < k ==> Explains(old(c.files), c.sections, old(c.cache.held), env(j), ops[j], outs[j], Flat(log[..j]), log[j])
      invariant Replays(old(c.files), Flat(log), c.files)
      invariant old(c.Tracks()) && (forall j :: 0 <= j < k ==> Sound(c.sections, env(j), ops[j], outs[j])) ==> c.Tracks()
    {
      var out;
      ghost var events;
      out, events := Do(c, ops[k], env(k), old(c.files), Flat(log));
      FlatMore(log, events);
      assert forall j :: 0 <= j < k ==> (log + [events])[..j] == log[..j];
      assert (log + [events])[..k] == log;
      outs, log := outs + [out], log + [events];
    }
  }

  lemma FlatMore(log: seq<seq<Event>>, events: seq<Event>)
    ensures Flat([]) == [] && Flat(log + [events]) == Flat(log) + events
  {
    assert (log + [events])[..|log|] == log;
  }

  // ----- Purges that fail half-way -------------------------------------------------------------------------

  /** Two views of file 7: the first dirty, the second in use. */
  const HalfHeld: State :=
    State(map[0 := Vacb(7, 0, true, 2), 1 := Vacb(7, GRANULARITY, false, 2)], map[7 := [0, 1]], [0, 1], [0],
          VACB_PAGES, map[7 := VACB_PAGES], multiset{1})

  lemma HalfHeldPlaced()
    ensures Placed(HalfHeld.vacbs, HalfHeld.lists)
  {
  }

  lemma HalfHeldOrdered()
    ensures Ordered(HalfHeld.vacbs, HalfHeld.lists)
  {
    assert HalfHeld.lists[7] == [0, 1];
  }

  lemma HalfHeldLists()
    ensures LruFits(HalfHeld.vacbs, HalfHeld.lru) && DirtyFits(HalfHeld.vacbs, HalfHeld.dirty)
  {
  }

  lemma HalfHeldCounts()
    ensures Counted(HalfHeld.vacbs, HalfHeld.held) && Totals(HalfHeld)
  {
    assert DirtyOf(HalfHeld.vacbs, 7) == {0};
  }

  lemma HalfHeldInv()
    ensures Inv(HalfHeld)
  {
    hide Counted, Placed, Ordered, LruFits, DirtyFits, Totals;
    HalfHeldPlaced();
    HalfHeldOrdered();
    HalfHeldLists();
    HalfHeldCounts();
  }

  /** What a purge leaves of the views. */
  ghost predicate LeftOver(x: State, r: Range, after: map<nat, Vacb>) {
    && (forall v :: v in after <==> v in x.vacbs && !Takes(x, r, v))
    && (forall v :: v in after ==> after[v] == x.vacbs[v])
  }

  /** A purge of three views' length is refused on account of the second view, but the first
      is gone by then, unmarked, with a byte under it that Mm has not written: nobody will
      look for it. */
  lemma RefusedPurgeLosesTrack(files: map<nat, Mm>, used: nat -> bool)
    requires files == map[7 := Mm(map[], map[0 := 5], {0})]
    ensures var r := Range(7, 0, 3 * GRANULARITY, 4 * GRANULARITY);
            && Inv(HalfHeld) && Tracked(files, HalfHeld.vacbs) && Refused(HalfHeld, r)
            && LosesTrack(HalfHeld, r, files[7], Gone(HalfHeld, r, used))
            && forall after: map<nat, Vacb> :: LeftOver(HalfHeld, r, after) ==> !Tracked(files, after)
  {
    hide Inv, Tracked, LosesTrack, Gone;
    HalfHeldInv();
    var r := Range(7, 0, 3 * GRANULARITY, 4 * GRANULARITY);
    FirstIsTaken(r, files, used);
    var gone := Gone(HalfHeld, r, used);
    forall after: map<nat, Vacb> | LeftOver(HalfHeld, r, after) ensures !Tracked(files, after) {
      PurgeTracksIff(HalfHeld, after, files, files, r, gone);
    }
  }

  lemma FirstIsTaken(r: Range, files: map<nat, Mm>, used: nat -> bool)
    requires r == Range(7, 0, 3 * GRANULARITY, 4 * GRANULARITY) && files == map[7 := Mm(map[], map[0 := 5], {0})]
    ensures Tracked(files, HalfHeld.vacbs) && Refused(HalfHeld, r) && LosesTrack(HalfHeld, r, files[7], Gone(HalfHeld, r, used))
    ensures forall i: nat :: !InRange(Gone(HalfHeld, r, used), i)
  {
    hide StopOf;
    assert Selected(HalfHeld, r, 1);
    assert Takes(HalfHeld, r, 0) && Covers(HalfHeld.vacbs[0], 0) && 0 in files[7].dirty;
    assert DirtyAt(HalfHeld.vacbs, 7, 0);
  }

  /** Three views of file 7, dirty and held by nobody. */
  const ThreeDirty: State :=
    State(map[0 := Vacb(7, 0, true, 2), 1 := Vacb(7, GRANULARITY, true, 2), 2 := Vacb(7, 2 * GRANULARITY, true, 2)],
          map[7 := [0, 1, 2]], [0, 1, 2], [0, 1, 2], 3 * VACB_PAGES, map[7 := 3 * VACB_PAGES], multiset{})

  lemma ThreeDirtyPlaced()
    ensures Placed(ThreeDirty.vacbs, ThreeDirty.lists)
  {
  }

  lemma ThreeDirtyOrdered()
    ensures Ordered(ThreeDirty.vacbs, ThreeDirty.lists)
  {
    assert ThreeDirty.lists[7] == [0, 1, 2];
  }

  lemma ThreeDirtyLists()
    ensures LruFits(ThreeDirty.vacbs, ThreeDirty.lru) && DirtyFits(ThreeDirty.vacbs, ThreeDirty.dirty)
  {
  }

  lemma ThreeDirtyCounts()
    ensures Counted(ThreeDirty.vacbs, ThreeDirty.held) && Totals(ThreeDirty)
  {
    assert DirtyOf(ThreeDirty.vacbs, 7) == {0, 1, 2};
  }

  lemma ThreeDirtyInv()
    ensures Inv(ThreeDirty)
  {
    hide Counted, Placed, Ordered, LruFits, DirtyFits, Totals;
    ThreeDirtyPlaced();
    ThreeDirtyOrdered();
    ThreeDirtyLists();
    ThreeDirtyCounts();
  }

  /** A purge of two views and a half page of the third.  Cc takes the first two views and
      stops at the third without refusing; Mm lets go of everything under the first two and
      gives up at the third, which is still mapped.  The purge fails, and what was written to
      the first 512 KB is lost. */
  lemma FailedPurgeDiscards(m: Mm, used: nat -> bool)
    requires Coherent(m) && used(0x80000) && forall p :: used(p) ==> p >= 0x80000
    ensures var r := PurgeRange(7, Some((0, 0x80800)), 0xC0000);
            && Inv(ThreeDirty) && InSection(ThreeDirty, r) && ThreeDirty.held == multiset{}
            && !Refused(ThreeDirty, r) && !GoesThrough(ThreeDirty, r, used)
            && Takes(ThreeDirty, r, 0) && Takes(ThreeDirty, r, 1) && !Takes(ThreeDirty, r, 2)
            && (forall i: nat :: Content(After(ThreeDirty, m, r, used), i) == if i < 0x80000 then OnDisk(m, i) else Content(m, i))
  {
    hide Inv, Content, OnDisk, Discarded, Coherent, Refused, Takes, InSection, IsPage;
    ThreeDirtyInv();
    TwoAreTaken();
    SomePages();
    StopIs(used, 0, 0x80800, 0x80000);
    DiscardedLoses(m, 0, 0x80000);
  }

  lemma SomePages()
    ensures IsPage(0) && IsPage(0x1000) && IsPage(0x80000) && Page(0) == 0 && Page(0x800) == 0
  {
  }

  lemma TwoAreTaken()
    ensures var r := PurgeRange(7, Some((0, 0x80800)), 0xC0000);
            && InSection(ThreeDirty, r) && !Refused(ThreeDirty, r)
            && Takes(ThreeDirty, r, 0) && Takes(ThreeDirty, r, 1) && !Takes(ThreeDirty, r, 2)
  {
  }

  /** A purge of the second half of a page takes the first half with it. */
  lemma WholePageGoes(m: Mm)
    requires Coherent(m)
    ensures var x, r, used := NoViews(7), PurgeRange(7, Some((0x800, 0x800)), 0x40000), (p: nat) => false;
            && GoesThrough(x, r, used)
            && (forall i: nat :: Content(After(x, m, r, used), i) == if i < 0x1000 then OnDisk(m, i) else Content(m, i))
  {
    hide Content, OnDisk, Discarded, Coherent, IsPage;
    SomePages();
    StopIs((p: nat) => false, 0, 0x1000, 0x1000);
    DiscardedLoses(m, 0, 0x1000);
  }
}
