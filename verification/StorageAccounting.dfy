/**
 Who owns which body storage, and what the global usage counters say about it.

 Every request keeps the body it received in one context slot. That storage is created on first use, replaced by
 the image playground and closed at the end of the request. A relay call wraps the body it sends upstream in a
 storage of its own, outside any slot, and closes it when the call returns. Media files cached on disk count
 alongside. Creating and closing move the global counters; so does the cache cleaner, which unlinks old files,
 and a reset of the disk counters.
 */
module StorageAccounting {
  import opened Wrappers
  import BodyStorage

  datatype Kind = InMemory | OnDisk

  /** `linked`: the storage has a file in the cache directory. */
  datatype Storage = Storage(kind: Kind, size: nat, open: bool, linked: bool)

  function NewStorage(kind: Kind, size: nat): Storage {
    Storage(kind, size, true, kind.OnDisk?)
  }

  datatype Counters = Counters(memoryBuffers: int, memoryBytes: int, diskFiles: int, diskBytes: int)

  function AtLeastZero(n: int): int {
    if n < 0 then 0 else n
  }

  function Increment(c: Counters, kind: Kind, size: nat): Counters {
    match kind
    case InMemory => c.(memoryBuffers := c.memoryBuffers + 1, memoryBytes := c.memoryBytes + size)
    case OnDisk => c.(diskFiles := c.diskFiles + 1, diskBytes := c.diskBytes + size)
  }

  /** Memory counters are plain; disk counters are never left negative. */
  function Decrement(c: Counters, kind: Kind, size: nat): Counters {
    match kind
    case InMemory => c.(memoryBuffers := c.memoryBuffers - 1, memoryBytes := c.memoryBytes - size)
    case OnDisk => c.(diskFiles := AtLeastZero(c.diskFiles - 1), diskBytes := AtLeastZero(c.diskBytes - size))
  }

  /** `slots[r]` is the storage in the context of request `r`, `outbound` holds the storages of the relay calls in
      progress and `media` the cached media files in use. */
  datatype State = State(storages: seq<Storage>, slots: seq<Option<nat>>, outbound: set<nat>, media: set<nat>,
                         counters: Counters)

  datatype Step =
    | GetBody(r: nat, kind: Kind, size: nat)   // creates a storage unless the slot holds one
    | Replace(r: nat, kind: Kind, size: nat)   // stores the stripped image request, closes the previous storage
    | Cleanup(r: nat)
    | OpenOutbound(kind: Kind, size: nat)      // a relay call wraps its upstream body
    | CloseOutbound(id: nat)                   // and returns
    | OpenMedia(size: nat)                     // a media file is cached on disk
    | CloseMedia(id: nat)
    | CloseAgain(id: nat)                      // any further Close of a storage that is already closed
    | CleanFile(id: nat)                       // the cache cleaner unlinks an old file
    | ResetDiskUsage

  function Init(requests: nat): State {
    State([], seq(requests, _ => None), {}, {}, Counters(0, 0, 0, 0))
  }

  predicate Enabled(s: State, step: Step) {
    match step
    case GetBody(r, _, _) => r < |s.slots|
    case Replace(r, _, _) => r < |s.slots|
    case Cleanup(r) => r < |s.slots|
    case OpenOutbound(_, _) => true
    case CloseOutbound(id) => id in s.outbound
    case OpenMedia(_) => true
    case CloseMedia(id) => id in s.media
    case CloseAgain(id) => id < |s.storages| && !s.storages[id].open
    case CleanFile(id) => id < |s.storages| && s.storages[id].linked
    case ResetDiskUsage => true
  }

  function Create(s: State, kind: Kind, size: nat): State {
    s.(storages := s.storages + [NewStorage(kind, size)], counters := Increment(s.counters, kind, size))
  }

  /** `Close` of a body storage: only the first call moves the counters, and it does so whether or not the file was
      still there. */
  function CloseStorage(s: State, id: nat): State {
    if id < |s.storages| && s.storages[id].open then
      s.(storages := s.storages[id := s.storages[id].(open := false, linked := false)],
      counters := Decrement(s.counters, s.storages[id].kind, s.storages[id].size))
    else s
  }

  /** A file leaves the cache directory and the counters with it. */
  function Unlink(s: State, id: nat): State
    requires id < |s.storages|
  {
    s.(storages := s.storages[id := s.storages[id].(linked := false)],
    counters := Decrement(s.counters, OnDisk, s.storages[id].size))
  }

  /** `Close` of a media file counts only if it removed the file itself. */
  function CloseMediaFile(s: State, id: nat): State {
    if id < |s.storages| && s.storages[id].open then
      var t := if s.storages[id].linked then Unlink(s, id) else s;
      t.(storages := t.storages[id := t.storages[id].(open := false)])
    else s
  }

  function Apply(s: State, step: Step): State
    requires Enabled(s, step)
  {
    match step
    case GetBody(r, kind, size) =>
      if s.slots[r].Some? then s
      else Create(s, kind, size).(slots := s.slots[r := Some(|s.storages|)])
    case Replace(r, kind, size) =>
      var previous := s.slots[r];
      var next := Create(s, kind, size).(slots := s.slots[r := Some(|s.storages|)]);
      if previous.Some? then CloseStorage(next, previous.value) else next
    case Cleanup(r) =>
      if s.slots[r].Some? then CloseStorage(s, s.slots[r].value).(slots := s.slots[r := None]) else s
    case OpenOutbound(kind, size) => Create(s, kind, size).(outbound := s.outbound + {|s.storages|})
    case CloseOutbound(id) => CloseStorage(s, id).(outbound := s.outbound - {id})
    case OpenMedia(size) => Create(s, OnDisk, size).(media := s.media + {|s.storages|})
    case CloseMedia(id) => CloseMediaFile(s, id).(media := s.media - {id})
    case CloseAgain(id) => CloseStorage(s, id)
    case CleanFile(id) => Unlink(s, id)
    case ResetDiskUsage => s.(counters := s.counters.(diskFiles := 0, diskBytes := 0))
  }

  function Exec(requests: nat, steps: seq<Step>): Option<State> {
    if steps == [] then Some(Init(requests))
    else
      match Exec(requests, steps[..|steps| - 1])
      case None => None
      case Some(s) =>
        var last := steps[|steps| - 1];
        if Enabled(s, last) then Some(Apply(s, last)) else None
  }

  // ----- Counting -----

  predicate OpenInMemory(x: Storage) {
    x.open && x.kind == InMemory
  }

  predicate HasFile(x: Storage) {
    x.linked
  }

  function Count(storages: seq<Storage>, p: Storage -> bool): nat {
    if storages == [] then 0
    else Count(storages[..|storages| - 1], p) + if p(storages[|storages| - 1]) then 1 else 0
  }

  function Bytes(storages: seq<Storage>, p: Storage -> bool): nat {
    if storages == [] then 0
    else Bytes(storages[..|storages| - 1], p) + if p(storages[|storages| - 1]) then storages[|storages| - 1].size else 0
  }

  function One(x: Storage, p: Storage -> bool): nat {
    if p(x) then 1 else 0
  }

  function Size(x: Storage, p: Storage -> bool): nat {
    if p(x) then x.size else 0
  }

  lemma {:induction false} CountUpdate(storages: seq<Storage>, id: nat, x: Storage, p: Storage -> bool)
    requires id < |storages|
    ensures Count(storages[id := x], p) == Count(storages, p) - One(storages[id], p) + One(x, p)
    ensures Bytes(storages[id := x], p) == Bytes(storages, p) - Size(storages[id], p) + Size(x, p)
  {
    var last := |storages| - 1;
    if id == last {
      assert storages[id := x][..last] == storages[..last];
    } else {
      assert storages[id := x][..last] == storages[..last][id := x];
      CountUpdate(storages[..last], id, x, p);
    }
  }

  lemma CountAppend(storages: seq<Storage>, x: Storage, p: Storage -> bool)
    ensures Count(storages + [x], p) == Count(storages, p) + One(x, p)
    ensures Bytes(storages + [x], p) == Bytes(storages, p) + Size(x, p)
  {
    assert (storages + [x])[..|storages|] == storages;
  }

  lemma {:induction false} CountNone(storages: seq<Storage>, p: Storage -> bool)
    ensures (forall id :: 0 <= id < |storages| ==> !p(storages[id])) ==> Count(storages, p) == 0
    ensures Count(storages, p) == 0 ==> Bytes(storages, p) == 0
  {
    if storages != [] {
      CountNone(storages[..|storages| - 1], p);
    }
  }

  // ----- Invariants -----

  /** Memory counters are exact, and disk counters never claim more than the files in the directory. */
  ghost predicate Balanced(s: State) {
    var c := s.counters;
    && c.memoryBuffers == Count(s.storages, OpenInMemory) && c.memoryBytes == Bytes(s.storages, OpenInMemory)
    && 0 <= c.diskFiles <= Count(s.storages, HasFile) && 0 <= c.diskBytes <= Bytes(s.storages, HasFile)
  }

  ghost predicate Exact(s: State) {
    s.counters.diskFiles == Count(s.storages, HasFile) && s.counters.diskBytes == Bytes(s.storages, HasFile)
  }

  predicate Held(s: State, id: nat) {
    Some(id) in s.slots || id in s.outbound || id in s.media
  }

  /** The open storages are exactly the ones in the slots, of relay calls and of media files, with one owner each;
      only they have files, and media are on disk. */
  predicate Owned(s: State) {
    && (forall r :: 0 <= r < |s.slots| && s.slots[r].Some? ==>
                      s.slots[r].value < |s.storages| && s.storages[s.slots[r].value].open)
    && (forall q, r :: 0 <= q < r < |s.slots| && s.slots[q].Some? && s.slots[r].Some? ==> s.slots[q] != s.slots[r])
    && (forall id :: id in s.outbound + s.media ==> id < |s.storages| && s.storages[id].open && Some(id) !in s.slots)
    && s.outbound !! s.media
    && (forall id :: id in s.media ==> s.storages[id].kind == OnDisk)
    && (forall id :: 0 <= id < |s.storages| && s.storages[id].open ==> Held(s, id))
    && (forall id :: 0 <= id < |s.storages| && s.storages[id].linked ==> s.storages[id].open && s.storages[id].kind == OnDisk)
  }

  lemma BalancedAfterCreate(s: State, kind: Kind, size: nat)
    requires Balanced(s)
    ensures Balanced(Create(s, kind, size))
    ensures Exact(s) ==> Exact(Create(s, kind, size))
  {
    CountAppend(s.storages, NewStorage(kind, size), OpenInMemory);
    CountAppend(s.storages, NewStorage(kind, size), HasFile);
  }

  /** A body storage whose file the cleaner already removed and counted. */
  predicate LostFile(s: State, id: nat) {
    id < |s.storages| && s.storages[id].open && s.storages[id].kind == OnDisk && !s.storages[id].linked
  }

  predicate FilesAreOpen(s: State) {
    forall id :: 0 <= id < |s.storages| && s.storages[id].linked ==> s.storages[id].open && s.storages[id].kind == OnDisk
  }

  lemma BalancedAfterClose(s: State, id: nat)
    requires Balanced(s) && FilesAreOpen(s)
    ensures Balanced(CloseStorage(s, id))
    ensures Exact(s) ==> (Exact(CloseStorage(s, id)) <==> !(LostFile(s, id) && s.counters.diskFiles > 0))
  {
    if id < |s.storages| && s.storages[id].open {
      var closed := s.storages[id].(open := false, linked := false);
      CountUpdate(s.storages, id, closed, OpenInMemory);
      CountUpdate(s.storages, id, closed, HasFile);
      CountNone(s.storages, HasFile);
    }
  }

  lemma BalancedAfterUnlink(s: State, id: nat)
    requires Balanced(s) && FilesAreOpen(s) && id < |s.storages| && s.storages[id].linked
    ensures Balanced(Unlink(s, id)) && (Exact(s) ==> Exact(Unlink(s, id)))
  {
    CountUpdate(s.storages, id, s.storages[id].(linked := false), OpenInMemory);
    CountUpdate(s.storages, id, s.storages[id].(linked := false), HasFile);
  }

  lemma BalancedAfterMedia(s: State, id: nat)
    requires Balanced(s) && Owned(s) && id in s.media
    ensures Balanced(CloseMediaFile(s, id)) && (Exact(s) ==> Exact(CloseMediaFile(s, id)))
  {
    var t := if s.storages[id].linked then Unlink(s, id) else s;
    if s.storages[id].linked {
      BalancedAfterUnlink(s, id);
    }
    CountUpdate(t.storages, id, t.storages[id].(open := false), OpenInMemory);
    CountUpdate(t.storages, id, t.storages[id].(open := false), HasFile);
  }

  /** The steps that take something off the disk counters that was not there any more: a reset, and the close of a
      body storage whose file was cleaned away, each while files are counted. */
  predicate Disturbs(s: State, step: Step)
    requires Enabled(s, step)
  {
    match step
    case Cleanup(r) => s.slots[r].Some? && LostFile(s, s.slots[r].value) && s.counters.diskFiles > 0
    case Replace(r, kind, size) =>
      s.slots[r].Some? && LostFile(s, s.slots[r].value) && (s.counters.diskFiles > 0 || kind == OnDisk)
    case CloseOutbound(id) => LostFile(s, id) && s.counters.diskFiles > 0
    case ResetDiskUsage => s.counters.diskFiles > 0
    case _ => false
  }

  /** Every step keeps the memory counters exact and the disk counters honest; exact disk counters stay exact if and
      only if the step does not disturb them. */
  lemma BalancedKept(s: State, step: Step)
    requires Balanced(s) && Owned(s) && Enabled(s, step)
    ensures Balanced(Apply(s, step))
    ensures Exact(s) ==> (Exact(Apply(s, step)) <==> !Disturbs(s, step))
  {
    hide Count;
    hide Bytes;
    match step
    case GetBody(r, kind, size) => BalancedAfterCreate(s, kind, size);
    case Replace(r, kind, size) =>
      BalancedAfterCreate(s, kind, size);
      var next := Create(s, kind, size).(slots := s.slots[r := Some(|s.storages|)]);
      if s.slots[r].Some? {
        BalancedAfterClose(next, s.slots[r].value);
      }
    case Cleanup(r) =>
      if s.slots[r].Some? {
        BalancedAfterClose(s, s.slots[r].value);
      }
    case OpenOutbound(kind, size) => BalancedAfterCreate(s, kind, size);
    case CloseOutbound(id) => BalancedAfterClose(s, id);
    case OpenMedia(size) => BalancedAfterCreate(s, OnDisk, size);
    case CloseMedia(id) => BalancedAfterMedia(s, id);
    case CloseAgain(id) =>
    case CleanFile(id) => BalancedAfterUnlink(s, id);
    case ResetDiskUsage => CountNone(s.storages, HasFile);
  }

  lemma OwnedAfterCreate(s: State, r: nat, kind: Kind, size: nat)
    requires Owned(s) && r < |s.slots| && s.slots[r].None?
    ensures Owned(Create(s, kind, size).(slots := s.slots[r := Some(|s.storages|)]))
  {
    var t := Create(s, kind, size).(slots := s.slots[r := Some(|s.storages|)]);
    forall id | 0 <= id < |t.storages| && t.storages[id].open ensures Held(t, id) {
      if id == |s.storages| {
        assert t.slots[r] == Some(id);
      } else if Some(id) in s.slots {
        var q :| 0 <= q < |s.slots| && s.slots[q] == Some(id);
        assert t.slots[q] == Some(id);
      }
    }
  }

  lemma OwnedAfterCleanup(s: State, r: nat)
    requires Owned(s) && r < |s.slots|
    ensures Owned(Apply(s, Cleanup(r)))
  {
    var t := Apply(s, Cleanup(r));
    forall id | 0 <= id < |t.storages| && t.storages[id].open ensures Held(t, id) {
      if Some(id) in s.slots {
        var q :| 0 <= q < |s.slots| && s.slots[q] == Some(id);
        assert t.slots[q] == Some(id);
      }
    }
    if s.slots[r].Some? {
      assert s.slots[r] in s.slots;
    }
  }

  lemma OwnedAfterOpening(s: State, step: Step)
    requires Owned(s) && (step.OpenOutbound? || step.OpenMedia?)
    ensures Owned(Apply(s, step))
  {
    var t, id := Apply(s, step), |s.storages|;
    assert forall i :: 0 <= i < id ==> t.storages[i] == s.storages[i];
    assert forall r :: 0 <= r < |s.slots| && s.slots[r].Some? ==> s.slots[r].value < id;
    assert Some(id) !in t.slots;
    forall i | 0 <= i < |t.storages| && t.storages[i].open ensures Held(t, i) {
      if i < id {
        assert Held(s, i);
      }
    }
  }

  lemma OwnedAfterReturn(s: State, step: Step)
    requires Owned(s) && Enabled(s, step) && (step.CloseOutbound? || step.CloseMedia?)
    ensures Owned(Apply(s, step))
  {
    var t := Apply(s, step);
    assert forall r :: 0 <= r < |s.slots| ==> s.slots[r] in s.slots;
    forall id | 0 <= id < |t.storages| && t.storages[id].open ensures Held(t, id) {
      assert Held(s, id);
    }
  }

  /** Creating before closing, as the playground does, ends where closing before creating would. */
  lemma ReplaceIsCleanupThenGet(s: State, r: nat, kind: Kind, size: nat)
    requires Owned(s) && r < |s.slots|
    ensures var t, u := Apply(s, Replace(r, kind, size)), Apply(Apply(s, Cleanup(r)), GetBody(r, kind, size));
            t.storages == u.storages && t.slots == u.slots && t.outbound == u.outbound && t.media == u.media
  {
    var t, u := Apply(s, Replace(r, kind, size)), Apply(Apply(s, Cleanup(r)), GetBody(r, kind, size));
    assert t.slots == u.slots;
    assert t.storages == u.storages;
  }

  lemma OwnedKept(s: State, step: Step)
    requires Owned(s) && Enabled(s, step)
    ensures Owned(Apply(s, step))
  {
    match step
    case GetBody(r, kind, size) =>
      if s.slots[r].None? {
        OwnedAfterCreate(s, r, kind, size);
      }
    case Replace(r, kind, size) =>
      ReplaceIsCleanupThenGet(s, r, kind, size);
      OwnedAfterCleanup(s, r);
      var mid := Apply(s, Cleanup(r));
      OwnedAfterCreate(mid, r, kind, size);
      OwnedDependsOnly(Apply(mid, GetBody(r, kind, size)), Apply(s, step));
    case Cleanup(r) => OwnedAfterCleanup(s, r);
    case OpenOutbound(_, _) => OwnedAfterOpening(s, step);
    case CloseOutbound(_) => OwnedAfterReturn(s, step);
    case OpenMedia(_) => OwnedAfterOpening(s, step);
    case CloseMedia(_) => OwnedAfterReturn(s, step);
    case CloseAgain(id) =>
    case CleanFile(id) => OwnedAfterClean(s, id);
    case ResetDiskUsage => OwnedDependsOnly(s, Apply(s, step));
  }

  lemma OwnedAfterClean(s: State, id: nat)
    requires Owned(s) && id < |s.storages| && s.storages[id].linked
    ensures Owned(Unlink(s, id))
  {
    var t := Unlink(s, id);
    forall i | 0 <= i < |t.storages| && t.storages[i].open ensures Held(t, i) {
      assert Held(s, i);
    }
  }

  lemma OwnedDependsOnly(s: State, t: State)
    requires Owned(s) && t.storages == s.storages && t.slots == s.slots && t.outbound == s.outbound && t.media == s.media
    ensures Owned(t)
  {
    forall i | 0 <= i < |t.storages| && t.storages[i].open ensures Held(t, i) {
      assert Held(s, i);
    }
  }

  lemma {:induction false} InvAlways(requests: nat, steps: seq<Step>)
    ensures Exec(requests, steps).Some? ==> Balanced(Exec(requests, steps).value) && Owned(Exec(requests, steps).value)
  {
    hide Balanced;
    hide Owned;
    if steps == [] {
      EmptyIsBalanced(requests);
    } else if Exec(requests, steps).Some? {
      InvAlways(requests, steps[..|steps| - 1]);
      var s, step := Exec(requests, steps[..|steps| - 1]).value, steps[|steps| - 1];
      BalancedKept(s, step);
      OwnedKept(s, step);
    }
  }

  lemma EmptyIsBalanced(requests: nat)
    ensures Balanced(Init(requests)) && Owned(Init(requests)) && Exact(Init(requests))
  {
  }

  // ----- Main results -----

  /** In every run the memory counters equal the number and total size of the open memory storages, and the disk
      counters never exceed the files in the directory. Once nothing is held all of them are zero. */
  lemma CountersMatchOpenStorages(requests: nat, steps: seq<Step>)
    requires Exec(requests, steps).Some?
    ensures var s := Exec(requests, steps).value;
            && s.counters.memoryBuffers == Count(s.storages, OpenInMemory)
            && s.counters.memoryBytes == Bytes(s.storages, OpenInMemory)
            && 0 <= s.counters.diskFiles <= Count(s.storages, HasFile)
            && 0 <= s.counters.diskBytes <= Bytes(s.storages, HasFile)
            && ((forall id :: 0 <= id < |s.storages| ==> !Held(s, id)) ==> s.counters == Counters(0, 0, 0, 0))
  {
    InvAlways(requests, steps);
    var s := Exec(requests, steps).value;
    CountNone(s.storages, OpenInMemory);
    CountNone(s.storages, HasFile);
  }

  ghost predicate ExactThroughout(requests: nat, steps: seq<Step>) {
    forall n :: 0 <= n <= |steps| ==> Exec(requests, steps[..n]).Some? && Exact(Exec(requests, steps[..n]).value)
  }

  predicate NeverDisturbed(requests: nat, steps: seq<Step>) {
    forall n :: 0 <= n < |steps| ==>
                  var before := Exec(requests, steps[..n]);
                  before.Some? && Enabled(before.value, steps[n]) && !Disturbs(before.value, steps[n])
  }

  lemma {:induction false} Prefixes(requests: nat, steps: seq<Step>, n: nat)
    requires Exec(requests, steps).Some? && n < |steps|
    ensures Exec(requests, steps[..n]).Some? && Enabled(Exec(requests, steps[..n]).value, steps[n])
    ensures Exec(requests, steps[..n + 1]) == Some(Apply(Exec(requests, steps[..n]).value, steps[n]))
  {
    if n == |steps| - 1 {
      assert steps[..n + 1] == steps;
    } else {
      Prefixes(requests, steps[..|steps| - 1], n);
      assert steps[..|steps| - 1][..n] == steps[..n] && steps[..|steps| - 1][..n + 1] == steps[..n + 1];
    }
  }

  lemma {:induction false} ExactPrefix(requests: nat, steps: seq<Step>, n: nat)
    requires Exec(requests, steps).Some? && NeverDisturbed(requests, steps) && n <= |steps|
    ensures Exec(requests, steps[..n]).Some? && Exact(Exec(requests, steps[..n]).value)
  {
    hide Exact;
    hide Balanced;
    hide Owned;
    hide Apply;
    if n == 0 {
      EmptyIsBalanced(requests);
    } else {
      ExactPrefix(requests, steps, n - 1);
      Prefixes(requests, steps, n - 1);
      InvAlways(requests, steps[..n - 1]);
      BalancedKept(Exec(requests, steps[..n - 1]).value, steps[n - 1]);
    }
  }

  /** The disk counters equal number and total size of the files throughout a run if and only if no step of it is a
      reset, or closes a body storage whose file was cleaned away, while files are counted. */
  lemma DiskCountersExactIff(requests: nat, steps: seq<Step>)
    requires Exec(requests, steps).Some?
    ensures ExactThroughout(requests, steps) <==> NeverDisturbed(requests, steps)
  {
    hide Exec;
    hide Exact;
    hide Balanced;
    hide Owned;
    hide Apply;
    if NeverDisturbed(requests, steps) {
      forall n | 0 <= n <= |steps| ensures Exec(requests, steps[..n]).Some? && Exact(Exec(requests, steps[..n]).value) {
        ExactPrefix(requests, steps, n);
      }
    }
    if ExactThroughout(requests, steps) {
      forall n | 0 <= n < |steps|
        ensures var before := Exec(requests, steps[..n]);
                before.Some? && Enabled(before.value, steps[n]) && !Disturbs(before.value, steps[n])
      {
        Prefixes(requests, steps, n);
        InvAlways(requests, steps[..n]);
        BalancedKept(Exec(requests, steps[..n]).value, steps[n]);
      }
    }
  }

  /** Two requests with a body on disk each. */
  lemma TwoBodies(size: nat) returns (s: State)
    ensures Exec(2, [GetBody(0, OnDisk, size), GetBody(1, OnDisk, size)]) == Some(s)
    ensures s.storages == [NewStorage(OnDisk, size), NewStorage(OnDisk, size)] && s.slots == [Some(0), Some(1)]
    ensures s.counters == Counters(0, 0, 2, size + size)
  {
    var a, b := GetBody(0, OnDisk, size), GetBody(1, OnDisk, size);
    assert Exec(2, []) == Some(Init(2));
    assert Init(2).slots == [None, None];
    hide Exec;
    var s1 := Next(2, [], Init(2), a);
    assert s1.storages == [NewStorage(OnDisk, size)] && s1.slots == [Some(0), None];
    s := Next(2, [] + [a], s1, b);
    assert [] + [a] + [b] == [a, b];
  }

  /** The failing case at its smallest: two bodies on disk, the file of one is cleaned away, then it is closed. The
      counters then say that no file is left. */
  lemma CleanedStorageIsCountedTwice(size: nat) returns (steps: seq<Step>)
    ensures steps == [GetBody(0, OnDisk, size), GetBody(1, OnDisk, size), CleanFile(0), Cleanup(0)]
    ensures Exec(2, steps).Some? && Exec(2, steps).value.counters.diskFiles == 0
    ensures Count(Exec(2, steps).value.storages, HasFile) == 1
  {
    hide Exec;
    hide Count;
    var s2 := TwoBodies(size);
    steps := [GetBody(0, OnDisk, size), GetBody(1, OnDisk, size)];
    var s3 := Next(2, steps, s2, CleanFile(0));
    var s4 := Next(2, steps + [CleanFile(0)], s3, Cleanup(0));
    steps := steps + [CleanFile(0)] + [Cleanup(0)];
    var closed := Storage(OnDisk, size, false, false);
    assert s4.storages == [] + [closed] + [NewStorage(OnDisk, size)];
    OneFileLeft(size, closed);
  }

  lemma OneFileLeft(size: nat, closed: Storage)
    requires !closed.linked
    ensures Count([] + [closed] + [NewStorage(OnDisk, size)], HasFile) == 1
  {
    CountAppend([] + [closed], NewStorage(OnDisk, size), HasFile);
    CountAppend([], closed, HasFile);
  }

  lemma Next(requests: nat, steps: seq<Step>, s: State, step: Step) returns (t: State)
    requires Exec(requests, steps) == Some(s) && Enabled(s, step)
    ensures t == Apply(s, step) && Exec(requests, steps + [step]) == Some(t)
  {
    assert (steps + [step])[..|steps|] == steps;
    t := Apply(s, step);
  }

  /** Without the cleaner every open storage on disk has its file, so the files are the open ones. */
  lemma {:induction false} FilesAreTheOpenOnes(requests: nat, steps: seq<Step>, id: nat)
    requires Exec(requests, steps).Some? && id < |Exec(requests, steps).value.storages|
    requires forall n :: 0 <= n < |steps| ==> !steps[n].CleanFile?
    ensures var x := Exec(requests, steps).value.storages[id]; x.linked <==> x.open && x.kind == OnDisk
  {
    if steps != [] {
      var before := Exec(requests, steps[..|steps| - 1]).value;
      if id < |before.storages| {
        FilesAreTheOpenOnes(requests, steps[..|steps| - 1], id);
      }
    }
  }

  /** Every open storage has exactly one owner: one request's slot, one relay call in progress or one media file in
      use. A slot holds at most one storage, and cleanup leaves the request with none: the storage it held is closed,
      and no other. */
  lemma OneStoragePerRequest(requests: nat, steps: seq<Step>, r: nat)
    requires Exec(requests, steps).Some? && r < |Exec(requests, steps).value.slots|
    ensures var s := Exec(requests, steps).value;
            && (forall id :: 0 <= id < |s.storages| ==> (s.storages[id].open <==> Held(s, id)))
            && (forall id :: id in s.outbound + s.media ==> Some(id) !in s.slots) && s.outbound !! s.media
            && (forall q, r :: 0 <= q < r < |s.slots| && s.slots[q].Some? ==> s.slots[q] != s.slots[r])
            && var t := Apply(s, Cleanup(r));
               && t.slots[r].None? && t.outbound == s.outbound && t.media == s.media
               && (s.slots[r].Some? ==> s.slots[r].value < |t.storages| && !t.storages[s.slots[r].value].open)
               && (forall id :: 0 <= id < |s.storages| && Some(id) != s.slots[r] ==> t.storages[id] == s.storages[id])
  {
    InvAlways(requests, steps);
  }

  /** What is opened is an open storage of the given kind and size, in a place of its own; everything opened before stays
      as it was, except the storage that a replacement closes. */
  lemma OpeningMeans(s: State, step: Step, kind: Kind, size: nat)
    requires Enabled(s, step)
    requires step == OpenOutbound(kind, size) || (step == OpenMedia(size) && kind == OnDisk)
             || (step.GetBody? && step.kind == kind && step.size == size && s.slots[step.r].None?)
             || (step.Replace? && step.kind == kind && step.size == size)
    ensures var t, id := Apply(s, step), |s.storages|;
            && |t.storages| == id + 1
            && (Replaced(s, step) != Some(id) ==>
                  t.storages[id].kind == kind && t.storages[id].size == size && t.storages[id].open
                  && (t.storages[id].linked <==> kind == OnDisk))
            && (forall i :: 0 <= i < id && Replaced(s, step) != Some(i) ==> t.storages[i] == s.storages[i])
            && (step.GetBody? || step.Replace? ==> t.slots[step.r] == Some(id))
            && (step.OpenOutbound? ==> t.outbound == s.outbound + {id}) && (step.OpenMedia? ==> t.media == s.media + {id})
  {
  }

  function Replaced(s: State, step: Step): Option<nat>
    requires Enabled(s, step)
  {
    if step.Replace? then s.slots[step.r] else None
  }

  /** A body in the slot is not replaced by reading it again. */
  lemma ReadingAgainCreatesNothing(s: State, r: nat, kind: Kind, size: nat)
    requires r < |s.slots| && s.slots[r].Some?
    ensures Apply(s, GetBody(r, kind, size)) == s
  {
  }

  // ----- The storages behind the accounts -----

  function OfMemory(m: BodyStorage.Memory): Storage {
    Storage(InMemory, |m.data|, !m.closed, false)
  }

  function OfDisk(d: BodyStorage.Disk): Storage {
    Storage(OnDisk, d.size, !d.closed, d.linked)
  }

  /** Of all calls on a storage only `Close` and the cleaner change its account, and they change it as `CloseStorage`
      and `Unlink` do. */
  lemma OnlyCloseIsAccounted(m: BodyStorage.Memory, d: BodyStorage.Disk, op: BodyStorage.Op)
    requires d.closed ==> !d.linked
    ensures OfMemory(BodyStorage.MemoryStep(m, op).0) == if op.Close? then OfMemory(m).(open := false) else OfMemory(m)
    ensures OfDisk(BodyStorage.DiskStep(d, op).0)
            == if op.Close? then OfDisk(d).(open := false, linked := false)
               else if op.RemoveFile? then OfDisk(d).(linked := false) else OfDisk(d)
  {
  }

  // ----- The objects -----

  /** The package-level counters. */
  class UsageStats {
    var memoryBuffers: int
    var memoryBytes: int
    var diskFiles: int
    var diskBytes: int

    ghost function Value(): Counters
      reads this
    {
      Counters(memoryBuffers, memoryBytes, diskFiles, diskBytes)
    }

    constructor ()
      ensures Value() == Counters(0, 0, 0, 0)
    {
      memoryBuffers, memoryBytes, diskFiles, diskBytes := 0, 0, 0, 0;
    }

    method Add(kind: Kind, size: nat)
      modifies this
      ensures Value() == Increment(old(Value()), kind, size)
    {
      if kind.InMemory? {
        memoryBuffers := memoryBuffers + 1;
        memoryBytes := memoryBytes + size;
      } else {
        diskFiles := diskFiles + 1;
        diskBytes := diskBytes + size;
      }
    }

    method Subtract(kind: Kind, size: nat)
      modifies this
      ensures Value() == Decrement(old(Value()), kind, size)
    {
      if kind.InMemory? {
        memoryBuffers := memoryBuffers - 1;
        memoryBytes := memoryBytes - size;
      } else {
        diskFiles := diskFiles - 1;
        if diskFiles < 0 {
          diskFiles := 0;
        }
        diskBytes := diskBytes - size;
        if diskBytes < 0 {
          diskBytes := 0;
        }
      }
    }
  }

  /** The storages of all requests, their context slots and the counters they move. */
  class Gateway {
    var storages: seq<Storage>
    var slots: seq<Option<nat>>
    ghost var outbound: set<nat>
    ghost var media: set<nat>
    const stats: UsageStats

    ghost function Value(): State
      reads this, stats
    {
      State(storages, slots, outbound, media, stats.Value())
    }

    constructor (requests: nat)
      ensures Value() == Init(requests) && fresh(stats)
    {
      storages, slots, outbound, media := [], seq(requests, _ => None), {}, {};
      stats := new UsageStats();
    }

    method CreateFor(r: nat, kind: Kind, size: nat)
      requires r < |slots|
      modifies this`storages, this`slots, stats
      ensures Value() == Create(old(Value()), kind, size).(slots := old(slots)[r := Some(|old(storages)|)])
    {
      stats.Add(kind, size);
      storages := storages + [NewStorage(kind, size)];
      slots := slots[r := Some(|storages| - 1)];
    }

    /** Compare-and-swap on the closed flag: only the first close counts. */
    method CloseOnce(id: nat)
      modifies this`storages, stats
      ensures Value() == CloseStorage(old(Value()), id)
    {
      if id < |storages| && storages[id].open {
        stats.Subtract(storages[id].kind, storages[id].size);
        storages := storages[id := storages[id].(open := false, linked := false)];
      }
    }

    method GetRequestBody(r: nat, kind: Kind, size: nat)
      requires r < |slots|
      modifies this`storages, this`slots, stats
      ensures Value() == Apply(old(Value()), GetBody(r, kind, size))
    {
      if slots[r].None? {
        CreateFor(r, kind, size);
      }
    }

    method ReplaceBody(r: nat, kind: Kind, size: nat)
      requires r < |slots|
      modifies this`storages, this`slots, stats
      ensures Value() == Apply(old(Value()), Replace(r, kind, size))
    {
      var previous := slots[r];
      CreateFor(r, kind, size);
      if previous.Some? {
        CloseOnce(previous.value);
      }
    }

    method CleanupBodyStorage(r: nat)
      requires r < |slots|
      modifies this`storages, this`slots, stats
      ensures Value() == Apply(old(Value()), Cleanup(r))
    {
      if slots[r].Some? {
        CloseOnce(slots[r].value);
        slots := slots[r := None];
      }
    }

    /** The storage of an upstream body; the caller closes it by the number it gets back. */
    method NewOutboundBody(kind: Kind, size: nat) returns (id: nat)
      modifies this`storages, this`outbound, stats
      ensures id == |old(storages)| && Value() == Apply(old(Value()), OpenOutbound(kind, size))
    {
      stats.Add(kind, size);
      id := |storages|;
      storages := storages + [NewStorage(kind, size)];
      outbound := outbound + {id};
    }

    method CloseOutboundBody(id: nat)
      requires id in outbound
      modifies this`storages, this`outbound, stats
      ensures Value() == Apply(old(Value()), CloseOutbound(id))
    {
      CloseOnce(id);
      outbound := outbound - {id};
    }

    /** A media file cached on disk. */
    method CacheMedia(size: nat) returns (id: nat)
      modifies this`storages, this`media, stats
      ensures id == |old(storages)| && Value() == Apply(old(Value()), OpenMedia(size))
    {
      stats.Add(OnDisk, size);
      id := |storages|;
      storages := storages + [NewStorage(OnDisk, size)];
      media := media + {id};
    }

    /** Counts only if it is the one that removes the file. */
    method CloseMediaOnce(id: nat)
      requires id in media
      modifies this`storages, this`media, stats
      ensures Value() == Apply(old(Value()), CloseMedia(id))
    {
      if id < |storages| && storages[id].open {
        if storages[id].linked {
          RemoveOldFile(id);
        }
        storages := storages[id := storages[id].(open := false)];
      }
      media := media - {id};
    }

    /** The cache cleaner on one file. */
    method RemoveOldFile(id: nat)
      requires id < |storages| && storages[id].linked
      modifies this`storages, stats
      ensures Value() == Apply(old(Value()), CleanFile(id))
    {
      stats.Subtract(OnDisk, storages[id].size);
      storages := storages[id := storages[id].(linked := false)];
    }
  }
}
