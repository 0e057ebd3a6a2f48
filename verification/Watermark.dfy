/**
 The watermark store with the file it persists to.  `Store` follows internal/state/watermark.go; the lemmas about
 whole runs say what memory and file are worth after any sequence of updates, flushes, failures and crashes.
 */
module Watermark {
  import opened Common

  datatype Entry = Entry(offset: int, inode: nat)

  type Files = map<string, Entry>

  /** What is on disk at the store's path. */
  datatype Disk = Missing | Corrupt | Saved(files: Files)

  datatype Options = Options(flushInterval: int, flushEvery: int, resetOnCorrupt: bool)

  /** One update that the store was asked to record. */
  datatype Update = Update(path: string, entry: Entry)

  /** The fields of Store and the file it owns. */
  datatype StoreState = StoreState(files: Files, dirty: bool, updatesSinceFlush: nat, disk: Disk)

  function Replay(files: Files, updates: seq<Update>): Files {
    if updates == [] then files
    else
      var last := updates[|updates| - 1];
      Replay(files, updates[..|updates| - 1])[last.path := last.entry]
  }

  /** What a load of the file yields: a missing file is an empty store. */
  function Loaded(disk: Disk): Files {
    if disk.Saved? then disk.files else map[]
  }

  predicate ShouldPersist(opts: Options, updatesSinceFlush: nat) {
    || (opts.flushInterval == 0 && opts.flushEvery == 0)
    || (opts.flushEvery > 0 && updatesSinceFlush >= opts.flushEvery)
  }

  /** An attempt to persist: the rename happens as a whole or not at all. */
  function PersistTo(s: StoreState, ok: bool): StoreState {
    if ok then StoreState(s.files, false, 0, Saved(s.files)) else s
  }

  function SetTo(opts: Options, s: StoreState, u: Update, ok: bool): StoreState {
    var t := StoreState(s.files[u.path := u.entry], true, s.updatesSinceFlush + 1, s.disk);
    if ShouldPersist(opts, t.updatesSinceFlush) then PersistTo(t, ok) else t
  }

  function FlushTo(s: StoreState, ok: bool): StoreState {
    if s.dirty then PersistTo(s, ok) else s
  }

  class Store {
    const opts: Options
    var files: Files
    var dirty: bool
    var updatesSinceFlush: nat
    var disk: Disk

    function View(): StoreState
      reads this
    {
      StoreState(files, dirty, updatesSinceFlush, disk)
    }

    constructor (files: Files, disk: Disk, opts: Options)
      ensures this.opts == opts && View() == StoreState(files, false, 0, disk)
    {
      this.opts := opts;
      this.files := files;
      this.dirty := false;
      this.updatesSinceFlush := 0;
      this.disk := disk;
    }

    /** A missing file starts empty; a corrupt one is archived when the options allow it and refused otherwise. */
    static method NewStore(disk: Disk, opts: Options) returns (store: Option<Store>)
      ensures store.None? <==> disk.Corrupt? && !opts.resetOnCorrupt
      ensures store.Some? ==> fresh(store.value) && store.value.opts == opts && Fresh(store.value.View())
      ensures store.Some? ==> store.value.disk == if disk.Corrupt? then Missing else disk
    {
      match disk
      case Missing => var s := new Store(map[], Missing, opts); store := Some(s);
      case Saved(files) => var s := new Store(files, disk, opts); store := Some(s);
      case Corrupt =>
        if !opts.resetOnCorrupt {
          return None;
        }
        var s := new Store(map[], Missing, opts);
        store := Some(s);
    }

    method Get(path: string) returns (entry: Option<Entry>)
      ensures entry == if path in files then Some(files[path]) else None
    {
      if path in files {
        return Some(files[path]);
      }
      entry := None;
    }

    method Persist(ok: bool) returns (err: Err)
      modifies this
      ensures View() == PersistTo(old(View()), ok)
      ensures err == if ok then Nil else WatermarkErr
    {
      if !ok {
        return WatermarkErr;
      }
      disk := Saved(files);
      dirty := false;
      updatesSinceFlush := 0;
      err := Nil;
    }

    /** Memory always takes the update; the file does exactly when the policy asks for it and the write succeeds. */
    method Set(path: string, offset: int, inode: nat, ok: bool) returns (err: Err)
      modifies this
      ensures files == old(files)[path := Entry(offset, inode)]
      ensures var due := (opts.flushInterval == 0 && opts.flushEvery == 0)
                         || (opts.flushEvery > 0 && old(updatesSinceFlush) + 1 >= opts.flushEvery);
              && (if due && ok then disk == Saved(files) && !dirty && updatesSinceFlush == 0
                  else disk == old(disk) && dirty && updatesSinceFlush == old(updatesSinceFlush) + 1)
              && err == (if due && !ok then WatermarkErr else Nil)
      ensures View() == SetTo(opts, old(View()), Update(path, Entry(offset, inode)), ok)
      ensures err == if ShouldPersist(opts, old(updatesSinceFlush) + 1) && !ok then WatermarkErr else Nil
    {
      files := files[path := Entry(offset, inode)];
      dirty := true;
      updatesSinceFlush := updatesSinceFlush + 1;
      if (opts.flushInterval == 0 && opts.flushEvery == 0)
         || (opts.flushEvery > 0 && updatesSinceFlush >= opts.flushEvery)
      {
        err := Persist(ok);
        return;
      }
      err := Nil;
    }

    /** A flush that succeeds puts memory on disk, a failed one changes nothing; a clean store has nothing to write. */
    method Flush(ok: bool) returns (err: Err)
      modifies this
      ensures View() == FlushTo(old(View()), ok)
      ensures err == if old(dirty) && !ok then WatermarkErr else Nil
      ensures files == old(files)
      ensures old(dirty) && ok ==> disk == Saved(files) && !dirty && updatesSinceFlush == 0
      ensures !old(dirty) || !ok ==> View() == old(View())
    {
      if !dirty {
        return Nil;
      }
      err := Persist(ok);
    }
  }

  // ---- Whole runs -----------------------------------------------------------------------------------------

  /** What happens to a store: an update, a flush (explicit or periodic), or a crash followed by a load. */
  datatype Event = DoSet(u: Update, ok: bool) | DoFlush(ok: bool) | Crash

  function Apply(opts: Options, s: StoreState, e: Event): StoreState {
    match e
    case DoSet(u, ok) => SetTo(opts, s, u, ok)
    case DoFlush(ok) => FlushTo(s, ok)
    case Crash => StoreState(Loaded(s.disk), false, 0, s.disk)
  }

  function ApplyAll(opts: Options, s: StoreState, events: seq<Event>): StoreState {
    if events == [] then s
    else Apply(opts, ApplyAll(opts, s, events[..|events| - 1]), events[|events| - 1])
  }

  /** The updates that still count: those of the runs so far without what each crash took back. */
  function Surviving(opts: Options, s: StoreState, events: seq<Event>): seq<Update> {
    if events == [] then []
    else
      var before := events[..|events| - 1];
      var updates := Surviving(opts, s, before);
      match events[|events| - 1]
      case DoSet(u, _) => updates + [u]
      case DoFlush(_) => updates
      case Crash =>
        var lag := ApplyAll(opts, s, before).updatesSinceFlush;
        if lag <= |updates| then updates[..|updates| - lag] else updates
  }

  predicate Fresh(s: StoreState) {
    s.files == Loaded(s.disk) && !s.dirty && s.updatesSinceFlush == 0
  }

  /** The shape of a store after updates: memory replays all of them, the file all but the unflushed ones. */
  predicate Consistent(base: Files, s: StoreState, updates: seq<Update>) {
    && s.updatesSinceFlush <= |updates|
    && s.files == Replay(base, updates)
    && Loaded(s.disk) == Replay(base, updates[..|updates| - s.updatesSinceFlush])
    && (s.dirty <==> s.updatesSinceFlush > 0)
  }

  lemma ReplaySnoc(base: Files, updates: seq<Update>, u: Update)
    ensures Replay(base, updates + [u]) == Replay(base, updates)[u.path := u.entry]
  {
    assert (updates + [u])[..|updates|] == updates;
  }

  lemma SetConsistent(opts: Options, base: Files, s: StoreState, updates: seq<Update>, u: Update, ok: bool)
    requires Consistent(base, s, updates)
    ensures Consistent(base, SetTo(opts, s, u, ok), updates + [u])
  {
    ReplaySnoc(base, updates, u);
    hide Replay;
    var longer := updates + [u];
    assert longer[..|longer| - (s.updatesSinceFlush + 1)] == updates[..|updates| - s.updatesSinceFlush];
    assert longer[..|longer| - 0] == longer;
  }

  lemma ApplyConsistent(opts: Options, base: Files, s: StoreState, updates: seq<Update>, e: Event)
    requires Consistent(base, s, updates)
    ensures Consistent(base, Apply(opts, s, e),
              match e case DoSet(u, _) => updates + [u] case DoFlush(_) => updates
                      case Crash => updates[..|updates| - s.updatesSinceFlush])
  {
    hide Replay;
    match e
    case DoSet(u, ok) => SetConsistent(opts, base, s, updates, u, ok);
    case DoFlush(ok) => assert updates[..|updates| - 0] == updates;
    case Crash =>
      var kept := updates[..|updates| - s.updatesSinceFlush];
      assert kept[..|kept| - 0] == kept;
  }

  /**
   Crash consistency: after any updates, flushes, persist failures and crashes, memory holds exactly the
   surviving updates, the file all of them but the last `updatesSinceFlush`, and a clean store equals its file.
   */
  lemma {:induction false} CrashConsistency(opts: Options, s: StoreState, events: seq<Event>)
    requires Fresh(s)
    ensures Consistent(Loaded(s.disk), ApplyAll(opts, s, events), Surviving(opts, s, events))
  {
    if events != [] {
      var before := events[..|events| - 1];
      CrashConsistency(opts, s, before);
      var last := events[|events| - 1];
      ApplyConsistent(opts, Loaded(s.disk), ApplyAll(opts, s, before), Surviving(opts, s, before), last);
    }
  }

  /** The file is always what memory was at some earlier moment. */
  lemma {:induction false} DiskIsPastMemory(opts: Options, s: StoreState, events: seq<Event>)
    requires Fresh(s)
    ensures exists k :: 0 <= k <= |events|
              && ApplyAll(opts, s, events[..k]).files == Loaded(ApplyAll(opts, s, events).disk)
  {
    if events == [] {
      assert ApplyAll(opts, s, events[..0]).files == Loaded(ApplyAll(opts, s, events).disk);
    } else {
      var before := events[..|events| - 1];
      var t := ApplyAll(opts, s, events);
      if t.disk == ApplyAll(opts, s, before).disk {
        DiskIsPastMemory(opts, s, before);
        var k :| 0 <= k <= |before|
          && ApplyAll(opts, s, before[..k]).files == Loaded(ApplyAll(opts, s, before).disk);
        assert events[..k] == before[..k];
      } else {
        assert events[..|events|] == events;
      }
    }
  }

  predicate NoFailures(events: seq<Event>) {
    forall k :: 0 <= k < |events| ==> (events[k].DoSet? || events[k].DoFlush?) ==> events[k].ok
  }

  /**
   How far the file lags when no persist fails: fewer than flush_every updates with a positive flush_every,
   none at all in synchronous mode.
   */
  lemma {:induction false} LagBound(opts: Options, s: StoreState, events: seq<Event>)
    requires Fresh(s) && NoFailures(events)
    ensures var lag := ApplyAll(opts, s, events).updatesSinceFlush;
            && (opts.flushEvery > 0 ==> lag < opts.flushEvery)
            && (opts.flushEvery == 0 && opts.flushInterval == 0 ==> lag == 0)
  {
    if events != [] {
      LagBound(opts, s, events[..|events| - 1]);
    }
  }

  lemma ApplyAllSnoc(opts: Options, s: StoreState, events: seq<Event>, e: Event)
    ensures ApplyAll(opts, s, events + [e]) == Apply(opts, ApplyAll(opts, s, events), e)
  {
    assert (events + [e])[..|events|] == events;
  }

  lemma SurvivingFlush(opts: Options, s: StoreState, events: seq<Event>)
    ensures Surviving(opts, s, events + [DoFlush(true)]) == Surviving(opts, s, events)
  {
    assert (events + [DoFlush(true)])[..|events|] == events;
  }

  /** A crash of a store without unflushed updates takes back nothing. */
  lemma SurvivingCrash(opts: Options, s: StoreState, events: seq<Event>)
    requires ApplyAll(opts, s, events).updatesSinceFlush == 0
    ensures Surviving(opts, s, events + [Crash]) == Surviving(opts, s, events)
  {
    assert (events + [Crash])[..|events|] == events;
    var updates := Surviving(opts, s, events);
    assert updates[..|updates| - 0] == updates;
  }

  /**
   A successful flush puts all of memory on disk: after any run that ends with one, the file equals memory, and a crash
   right then takes back no update.
   */
  lemma FlushedSurvives(opts: Options, s: StoreState, events: seq<Event>)
    requires Fresh(s)
    ensures var flushed := events + [DoFlush(true)]; var t := ApplyAll(opts, s, flushed);
            && Loaded(t.disk) == t.files == ApplyAll(opts, s, events).files && !t.dirty && t.updatesSinceFlush == 0
            && Surviving(opts, s, flushed + [Crash]) == Surviving(opts, s, flushed) == Surviving(opts, s, events)
            && ApplyAll(opts, s, flushed + [Crash]).files == t.files
  {
    var flushed := events + [DoFlush(true)];
    CrashConsistency(opts, s, events);
    ApplyAllSnoc(opts, s, events, DoFlush(true));
    ApplyAllSnoc(opts, s, flushed, Crash);
    SurvivingFlush(opts, s, events);
    SurvivingCrash(opts, s, flushed);
    var updates := Surviving(opts, s, events);
    assert updates[..|updates| - 0] == updates;
  }

  /** Updates and nothing else, every persist succeeding. */
  predicate OnlySets(events: seq<Event>) {
    forall k :: 0 <= k < |events| ==> events[k].DoSet? && events[k].ok
  }

  /**
   How far the file lags after updates alone: with a positive flush_every it is written at every flush_every-th update
   and not in between, in interval-only mode not at all, in synchronous mode always.
   */
  lemma {:induction false} LagExactly(opts: Options, s: StoreState, events: seq<Event>)
    requires Fresh(s) && OnlySets(events)
    ensures var lag := ApplyAll(opts, s, events).updatesSinceFlush;
            lag == if opts.flushEvery > 0 then |events| % opts.flushEvery
                   else if opts.flushEvery == 0 && opts.flushInterval == 0 then 0 else |events|
  {
    if events != [] {
      var before := events[..|events| - 1];
      LagExactly(opts, s, before);
      SetLag(opts, ApplyAll(opts, s, before), events[|events| - 1]);
      if opts.flushEvery > 0 {
        ModStep(|before|, opts.flushEvery);
      }
      hide Apply, ShouldPersist;
    }
  }

  /** One update more, written when the policy asks for it. */
  lemma SetLag(opts: Options, s: StoreState, e: Event)
    requires e.DoSet? && e.ok
    ensures var lag := Apply(opts, s, e).updatesSinceFlush;
            && (opts.flushEvery > 0 ==>
                  lag == if s.updatesSinceFlush + 1 >= opts.flushEvery then 0 else s.updatesSinceFlush + 1)
            && (opts.flushEvery <= 0 ==>
                  lag == if opts.flushEvery == 0 && opts.flushInterval == 0 then 0 else s.updatesSinceFlush + 1)
  {
  }

  lemma ModStep(n: nat, m: nat)
    requires m > 0
    ensures (n + 1) % m == if n % m + 1 == m then 0 else n % m + 1
  {
    var q, r := n / m, n % m;
    assert n == q * m + r;
    if r + 1 == m {
      assert n + 1 == (q + 1) * m + 0;
      ModUnique(n + 1, m, q + 1, 0);
    } else {
      ModUnique(n + 1, m, q, r + 1);
    }
  }

  lemma ModUnique(n: nat, m: nat, q: nat, r: nat)
    requires n == q * m + r && r < m
    ensures n % m == r
  {
    var d := n / m - q;
    assert n == n / m * m + n % m;
    assert d * m == r - n % m;
    NoSmallMultiple(d, m);
  }

  lemma NoSmallMultiple(d: int, m: nat)
    ensures d > 0 ==> d * m >= m
    ensures d < 0 ==> d * m + m <= 0
  {
  }
}
