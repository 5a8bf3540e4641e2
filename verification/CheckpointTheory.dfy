/** Every run of turns, tracked edits and rewinds: a restore is exact, a rewind forgets, and a
    store reloaded from its directory reads the same. */
module CheckpointTheory {
  import opened Text
  import opened Checkpoint

  /** The store, the workspace, and what the workspace was when each live turn began. */
  datatype World = World(store: Store, fs: Files, history: seq<Files>)

  /** Begin the next turn; write or delete (None) one file, snapshotting it first; rewind code
      and checkpoints to a turn; open the store again from its directory, listed in some order. */
  datatype Action =
    | BeginTurn(prompt: string, msgIndex: int)
    | Edit(path: string, after: Option<File>)
    | Rewind(turn: int)
    | Reload(order: seq<int>)

  function SetFile(fs: Files, p: string, after: Option<File>): Files {
    if after.Some? then fs[p := after.value] else fs - {p}
  }

  /** The change a truthful previewer reports before the edit. */
  function TruthfulChange(fs: Files, p: string): Change {
    if p in fs then Change(p, Modify, fs[p].text) else Change(p, Create, "")
  }

  function EncodingOf(fs: Files, p: string): Option<Encoding> {
    if p in fs then Some(fs[p].enc) else None
  }

  function Restored(cs: seq<Checkpoint>, from: int, fs: Files): Files {
    var paths := fs.Keys + set c, f | c in cs && f in c.files :: f.path;
    map p | p in paths && RestoredFile(cs, from, fs, p).Some? :: RestoredFile(cs, from, fs, p).value
  }

  /** Edits are tracked from the first Begin on, and again after the Begin that follows a rewind
      or a reload. */
  ghost predicate CanDo(w: World, a: Action) {
    match a
    case BeginTurn(_, _) => true
    case Edit(path, _) => path != "" && w.store.cur.Some?
    case Rewind(turn) => true
    case Reload(order) => w.store.disk.Some? && Lists(w.store.disk.value, order)
  }

  /** order lists the directory: every turn file once. */
  ghost predicate Lists(disk: map<int, Checkpoint>, order: seq<int>) {
    (forall i :: 0 <= i < |order| ==> order[i] in disk) &&
    (forall k :: k in disk ==> k in order) &&
    forall i, j :: 0 <= i < j < |order| ==> order[i] != order[j]
  }

  ghost function Do(w: World, a: Action): World
    requires CanDo(w, a)
  {
    match a
    case BeginTurn(prompt, msgIndex) =>
      w.(store := DoBegin(w.store, NextTurnOf(Held(w.store)), prompt, msgIndex), history := w.history + [w.fs])
    case Edit(path, after) =>
      w.(store := DoSnapshot(w.store, TruthfulChange(w.fs, path), EncodingOf(w.fs, path)),
         fs := SetFile(w.fs, path, after))
    case Rewind(turn) =>
      World(DoTruncate(w.store, turn), Restored(All(w.store), turn, w.fs),
            if 0 <= turn <= |w.history| then w.history[..turn] else if turn < 0 then [] else w.history)
    case Reload(order) => w.(store := DoLoad(w.store.disk.value, order))
  }

  ghost predicate CanDoAll(w: World, actions: seq<Action>)
    decreases |actions|
  {
    actions == [] || (CanDo(w, actions[0]) && CanDoAll(Do(w, actions[0]), actions[1..]))
  }

  ghost function DoAll(w: World, actions: seq<Action>): World
    requires CanDoAll(w, actions)
    decreases |actions|
  {
    if actions == [] then w else DoAll(Do(w, actions[0]), actions[1..])
  }

  // ----- the invariant -----

  predicate Numbered(cs: seq<Checkpoint>) {
    forall i :: 0 <= i < |cs| ==> cs[i].turn == i
  }

  /** The first record of p among files, if any, describes p in `at`; without one p did not
      change between `at` and `later`. */
  predicate Bridges(files: seq<FileSnap>, at: Files, later: Files, p: string) {
    var snap := FirstSnap(files, p);
    if snap.None? then Lookup(at, p) == Lookup(later, p)
    else (snap.value.content.Some? ==> snap.value.enc.Some?) && WrittenBack(snap.value, None) == Lookup(at, p)
  }

  function After(w: World, i: nat): Files
    requires i < |w.history|
  {
    if i + 1 < |w.history| then w.history[i + 1] else w.fs
  }

  function DiskOf(cs: seq<Checkpoint>): map<int, Checkpoint> {
    if cs == [] then map[] else DiskOf(cs[..|cs| - 1])[cs[|cs| - 1].turn := cs[|cs| - 1]]
  }

  ghost predicate Inv(w: World) {
    var cs := Held(w.store);
    Numbered(cs) && |w.history| == |cs| &&
    (forall i: nat, p :: i < |cs| ==> Bridges(cs[i].files, w.history[i], After(w, i), p)) &&
    (w.store.cur.Some? ==> forall p :: p in w.store.seen <==> FirstSnap(w.store.cur.value.files, p).Some?) &&
    (w.store.disk.Some? ==> w.store.disk.value == DiskOf(cs))
  }

  const FRESH := Store([], None, {}, Some(map[]))

  function Opened(fs: Files, persisted: bool): World {
    World(if persisted then FRESH else FRESH.(disk := None), fs, [])
  }

  lemma InitInv(fs: Files, persisted: bool)
    ensures Inv(Opened(fs, persisted))
  {
  }

  lemma {:induction false} NumberedNext(cs: seq<Checkpoint>)
    requires Numbered(cs)
    ensures NextTurnOf(cs) == |cs|
  {
    if cs != [] {
      NumberedNext(cs[..|cs| - 1]);
    }
  }

  lemma {:induction false} NumberedBefore(cs: seq<Checkpoint>, t: int)
    requires Numbered(cs)
    ensures Before(cs, t) == cs[..if t < 0 then 0 else if t > |cs| then |cs| else t]
  {
    if cs != [] {
      NumberedBefore(cs[..|cs| - 1], t);
    }
  }

  lemma SortedSortsItself(cs: seq<Checkpoint>)
    requires Numbered(cs)
    ensures SortByTurn(cs) == cs
  {
    SortFrom(cs, 0);
    assert cs[0..] == cs;
  }

  lemma {:induction false} SortFrom(cs: seq<Checkpoint>, k: nat)
    requires Numbered(cs) && k <= |cs|
    ensures SortByTurn(cs[k..]) == cs[k..]
    decreases |cs| - k
  {
    if k < |cs| {
      SortFrom(cs, k + 1);
      assert cs[k..][1..] == cs[k + 1..];
      assert cs[k + 1..] != [] ==> cs[k + 1..][0] == cs[k + 1];
    }
  }

  lemma {:induction false} DiskOfMeaning(cs: seq<Checkpoint>)
    requires Numbered(cs)
    ensures forall k :: k in DiskOf(cs) <==> 0 <= k < |cs|
    ensures forall i :: 0 <= i < |cs| ==> DiskOf(cs)[i] == cs[i]
  {
    if cs != [] {
      DiskOfMeaning(cs[..|cs| - 1]);
    }
  }

  lemma {:induction false} FirstSnapAppend(files: seq<FileSnap>, snap: FileSnap, p: string)
    ensures FirstSnap(files + [snap], p) ==
      if FirstSnap(files, p).Some? then FirstSnap(files, p) else if snap.path == p then Some(snap) else None
  {
    if files != [] {
      assert (files + [snap])[1..] == files[1..] + [snap];
      FirstSnapAppend(files[1..], snap, p);
    }
  }

  lemma BeginInv(w: World, prompt: string, msgIndex: int)
    requires Inv(w)
    ensures Inv(Do(w, BeginTurn(prompt, msgIndex)))
  {
    var cs := Held(w.store);
    NumberedNext(cs);
    var w' := Do(w, BeginTurn(prompt, msgIndex));
    var cs' := Held(w'.store);
    assert cs'[..|cs' | - 1] == cs;
    forall i: nat, p | i < |cs'| ensures Bridges(cs'[i].files, w'.history[i], After(w', i), p) {
      if i < |cs| {
        assert Bridges(cs[i].files, w.history[i], After(w, i), p);
      }
    }
  }

  lemma EditInv(w: World, path: string, after: Option<File>)
    requires Inv(w) && CanDo(w, Edit(path, after))
    ensures Inv(Do(w, Edit(path, after)))
  {
    EditHolds(w, path, after);
    if path !in w.store.seen {
      EditRecords(w, path, after);
    }
    hide Bridges, FirstSnap, DiskOf;
    assert path in w.store.seen ==> Do(w, Edit(path, after)).store == w.store;
  }

  lemma EditHolds(w: World, path: string, after: Option<File>)
    requires Inv(w) && CanDo(w, Edit(path, after))
    ensures var w' := Do(w, Edit(path, after));
      Numbered(Held(w'.store)) && |Held(w'.store)| == |w'.history| &&
      forall i: nat, p :: i < |w'.history| ==> Bridges(Held(w'.store)[i].files, w'.history[i], After(w', i), p)
  {
    hide DiskOf;
    EditNumbers(w, path, after);
    var w' := Do(w, Edit(path, after));
    var cs, cs' := Held(w.store), Held(w'.store);
    var last := |cs| - 1;
    assert cs'[..last] == cs[..last];
    forall i: nat, p | i < |cs'| ensures Bridges(cs'[i].files, w'.history[i], After(w', i), p) {
      assert Bridges(cs[i].files, w.history[i], After(w, i), p);
      if i == last && path !in w.store.seen {
        FirstSnapAppend(cs[i].files, cs'[i].files[|cs[i].files|], p);
      }
    }
  }

  lemma EditNumbers(w: World, path: string, after: Option<File>)
    requires Numbered(Held(w.store)) && CanDo(w, Edit(path, after))
    ensures Numbered(Held(Do(w, Edit(path, after)).store))
  {
    var cs, cs' := Held(w.store), Held(Do(w, Edit(path, after)).store);
    var last := |cs| - 1;
    assert cs'[last].turn == cs[last].turn;
    forall i | 0 <= i < |cs'| ensures cs'[i].turn == i {
      if i < last {
        assert cs'[i] == cs[i];
      }
    }
  }

  lemma EditRecords(w: World, path: string, after: Option<File>)
    requires Inv(w) && CanDo(w, Edit(path, after)) && path !in w.store.seen
    ensures var s' := Do(w, Edit(path, after)).store;
      (forall p :: p in s'.seen <==> FirstSnap(s'.cur.value.files, p).Some?) &&
      (s'.disk.Some? ==> s'.disk.value == DiskOf(Held(s')))
  {
    EditSees(w, path, after);
    if w.store.disk.Some? {
      EditPersists(w, path, after);
    }
  }

  lemma EditSees(w: World, path: string, after: Option<File>)
    requires Inv(w) && CanDo(w, Edit(path, after)) && path !in w.store.seen
    ensures var s' := Do(w, Edit(path, after)).store;
      forall p :: p in s'.seen <==> FirstSnap(s'.cur.value.files, p).Some?
  {
    hide Bridges, DiskOf, SetFile, EncodingOf;
    var files, s' := w.store.cur.value.files, Do(w, Edit(path, after)).store;
    assert w.store.cur.value == Held(w.store)[|Held(w.store)| - 1];
    forall p ensures p in s'.seen <==> FirstSnap(s'.cur.value.files, p).Some? {
      FirstSnapAppend(files, s'.cur.value.files[|files|], p);
    }
  }

  lemma EditPersists(w: World, path: string, after: Option<File>)
    requires Inv(w) && CanDo(w, Edit(path, after)) && path !in w.store.seen && w.store.disk.Some?
    ensures var s' := Do(w, Edit(path, after)).store; s'.disk == Some(DiskOf(Held(s')))
  {
    hide Bridges, FirstSnap, SetFile, EncodingOf, DiskOf;
    var cs, cs' := Held(w.store), Held(Do(w, Edit(path, after)).store);
    var last := |cs| - 1;
    assert cs'[..last] == cs[..last] && |cs'| == |cs|;
    assert cs[last] == w.store.cur.value && cs[last].turn == last && cs'[last].turn == last;
    DiskOfLast(cs, cs', last);
  }

  lemma DiskOfLast(cs: seq<Checkpoint>, cs': seq<Checkpoint>, last: nat)
    requires |cs| == |cs'| == last + 1 && cs[..last] == cs'[..last] && cs[last].turn == cs'[last].turn == last
    ensures DiskOf(cs') == DiskOf(cs)[last := cs'[last]]
  {
  }

  // ----- restore -----

  /** From checkpoint i on, the earliest record of p is what p was when turn i began. */
  lemma {:induction false} EarliestFrom(w: World, i: nat, t: int, p: string)
    requires Inv(w) && i <= |w.history| && t <= i
    ensures var cs, at := Held(w.store), if i < |w.history| then w.history[i] else w.fs;
      var snap := Earliest(cs[i..], t, p);
      if snap.None? then Lookup(at, p) == Lookup(w.fs, p)
      else (snap.value.content.Some? ==> snap.value.enc.Some?) && WrittenBack(snap.value, None) == Lookup(at, p)
    decreases |w.history| - i
  {
    if i < |w.history| {
      var cs := Held(w.store);
      EarliestFrom(w, i + 1, t, p);
      assert cs[i..][1..] == cs[i + 1..] && cs[i..][0] == cs[i];
      assert Bridges(cs[i].files, w.history[i], After(w, i), p);
    }
  }

  lemma {:induction false} EarliestSkips(cs: seq<Checkpoint>, t: nat, k: nat, p: string)
    requires Numbered(cs) && k <= t && k <= |cs|
    ensures Earliest(cs[k..], t, p) == Earliest(cs[if t < |cs| then t else |cs|..], t, p)
    decreases |cs| - k
  {
    if k < t && k < |cs| {
      assert cs[k..][1..] == cs[k + 1..] && cs[k..][0] == cs[k];
      EarliestSkips(cs, t, k + 1, p);
    }
  }

  lemma WrittenBackKnown(snap: FileSnap, now: Option<File>)
    requires snap.content.Some? ==> snap.enc.Some?
    ensures WrittenBack(snap, now) == WrittenBack(snap, None)
  {
  }

  /** State the workspace goes back to: its state when turn t began, its present state when no
      such turn is live. */
  function StateAt(w: World, t: int): Files {
    if w.history == [] then w.fs
    else if t < 0 then w.history[0]
    else if t < |w.history| then w.history[t]
    else w.fs
  }

  lemma RestoreExactAt(w: World, t: int, p: string)
    requires Inv(w)
    ensures RestoredFile(All(w.store), t, w.fs, p) == Lookup(StateAt(w, t), p)
  {
    var cs := Held(w.store);
    SortedSortsItself(cs);
    var i := if t < 0 then 0 else if t < |cs| then t else |cs|;
    if t >= 0 {
      EarliestSkips(cs, t, 0, p);
      assert cs[0..] == cs;
      if t > |cs| {
        assert cs[|cs|..] == [];
      } else {
        EarliestFrom(w, i, t, p);
      }
    } else {
      EarliestFrom(w, 0, t, p);
      assert cs[0..] == cs;
    }
    var snap := Earliest(cs, t, p);
    if snap.Some? {
      WrittenBackKnown(snap.value, Lookup(w.fs, p));
    }
  }

  lemma {:induction false} EarliestTouches(cs: seq<Checkpoint>, t: int, p: string)
    requires Earliest(cs, t, p).Some?
    ensures exists c, f :: c in cs && f in c.files && f.path == p
    decreases |cs|
  {
    if cs[0].turn >= t && FirstSnap(cs[0].files, p).Some? {
      FirstSnapIn(cs[0].files, p);
      var f :| f in cs[0].files && f.path == p;
      assert cs[0] in cs;
    } else {
      EarliestTouches(cs[1..], t, p);
      var c, f :| c in cs[1..] && f in c.files && f.path == p;
      assert c in cs;
    }
  }

  lemma {:induction false} FirstSnapIn(files: seq<FileSnap>, p: string)
    requires FirstSnap(files, p).Some?
    ensures exists f :: f in files && f.path == p
  {
    if files[0].path == p {
      assert files[0] in files;
    } else {
      FirstSnapIn(files[1..], p);
      var f :| f in files[1..] && f.path == p;
      assert f in files;
    }
  }

  /** A restore in which some paths fail still puts every other file back exactly as it was when
      turn t began. */
  lemma FaultsStayLocal(w: World, t: int, faults: map<string, Fault>, p: string)
    requires Inv(w) && p !in faults
    ensures PutBackFile(All(w.store), t, w.fs, faults, p) == Lookup(StateAt(w, t), p)
  {
    RestoreExactAt(w, t, p);
  }

  /** A path that fails keeps its present state, or what the broken write left if it was to be
      written. */
  lemma FaultLeaves(w: World, t: int, faults: map<string, Fault>, p: string)
    requires p in faults
    ensures var snap := Earliest(All(w.store), t, p);
      PutBackFile(All(w.store), t, w.fs, faults, p) ==
        if snap.Some? && snap.value.content.Some? && faults[p].BrokenWrite? then faults[p].leaves else Lookup(w.fs, p)
  {
    hide Earliest, All;
  }

  /** RestoreCode(t) puts every file back exactly as it was when turn t began. */
  lemma RestoreIsExact(w: World, t: int)
    requires Inv(w)
    ensures Restored(All(w.store), t, w.fs) == StateAt(w, t)
  {
    var cs := All(w.store);
    var r := Restored(cs, t, w.fs);
    var paths := w.fs.Keys + set c, f | c in cs && f in c.files :: f.path;
    forall p ensures Lookup(r, p) == Lookup(StateAt(w, t), p) {
      RestoreExactAt(w, t, p);
      if p !in paths {
        assert Lookup(w.fs, p) == None;
        if Earliest(cs, t, p).Some? {
          EarliestTouches(cs, t, p);
          assert false;
        }
      }
    }
    SameLookups(r, StateAt(w, t));
  }

  lemma SameLookups(a: Files, b: Files)
    requires forall p :: Lookup(a, p) == Lookup(b, p)
    ensures a == b
  {
    forall p ensures p in a <==> p in b {
      assert Lookup(a, p) == Lookup(b, p);
    }
    forall p | p in a ensures a[p] == b[p] {
      assert Lookup(a, p) == Lookup(b, p);
    }
  }

  // ----- rewind -----

  lemma TruncatedHeld(s: Store, t: int)
    requires Numbered(Held(s))
    ensures Held(DoTruncate(s, t)) == Before(Held(s), t)
  {
    var cs := Held(s);
    if s.cur.Some? {
      assert cs[..|cs| - 1] == s.done && cs[|cs| - 1] == s.cur.value;
    }
  }

  function Clamp(t: int, n: nat): (r: nat)
    ensures r <= n
  {
    if t < 0 then 0 else if t > n then n else t
  }

  lemma RewindShape(w: World, t: int)
    requires Inv(w)
    ensures var cs, w' := Held(w.store), Do(w, Rewind(t));
      w'.store == DoTruncate(w.store, t) && Held(w'.store) == cs[..Clamp(t, |cs|)] &&
      w'.history == w.history[..Clamp(t, |cs|)] && w'.fs == StateAt(w, t)
  {
    TruncatedHeld(w.store, t);
    NumberedBefore(Held(w.store), t);
    RestoreIsExact(w, t);
  }

  lemma RewindDisk(w: World, t: int)
    requires Inv(w) && w.store.disk.Some?
    ensures DoTruncate(w.store, t).disk == Some(DiskOf(Held(w.store)[..Clamp(t, |Held(w.store)|)]))
  {
    var cs := Held(w.store);
    var n := Clamp(t, |cs|);
    DiskOfMeaning(cs);
    DiskOfMeaning(cs[..n]);
    var cut := TurnsFrom(cs, t);
    forall k ensures k in cut <==> n <= k < |cs| {
      if n <= k < |cs| {
        assert cs[k] in cs && cs[k].turn == k;
      }
    }
    assert w.store.disk.value - cut == DiskOf(cs[..n]);
  }

  lemma RewindInv(w: World, t: int)
    requires Inv(w)
    ensures Inv(Do(w, Rewind(t)))
    ensures Do(w, Rewind(t)).fs == StateAt(w, t)
  {
    RewindShape(w, t);
    RewindBridges(w, t);
    if w.store.disk.Some? {
      RewindDisk(w, t);
    }
    RewindSeen(w, t);
    hide DoTruncate, Held, DiskOf, FirstSnap, Bridges, After, Restored, StateAt;
    var cs, cs' := Held(w.store), Held(Do(w, Rewind(t)).store);
    assert Numbered(cs') by {
      assert cs' == cs[..Clamp(t, |cs|)];
    }
    hide Numbered, Do;
  }

  lemma RewindBridges(w: World, t: int)
    requires Inv(w)
    ensures var w' := Do(w, Rewind(t));
      |Held(w'.store)| == |w'.history| &&
      forall i: nat, p :: i < |w'.history| ==> Bridges(Held(w'.store)[i].files, w'.history[i], After(w', i), p)
  {
    RewindShape(w, t);
    hide Do, DoTruncate, Held, DiskOf, FirstSnap, Bridges, After;
    var cs, w' := Held(w.store), Do(w, Rewind(t));
    forall i: nat, p | i < |w'.history| ensures Bridges(Held(w'.store)[i].files, w'.history[i], After(w', i), p) {
      assert Bridges(cs[i].files, w.history[i], After(w, i), p);
      RewindAfter(w, w', t, i);
    }
  }

  lemma RewindAfter(w: World, w': World, t: int, i: nat)
    requires w'.history == w.history[..Clamp(t, |w.history|)] && w'.fs == StateAt(w, t) && i < |w'.history|
    ensures After(w', i) == After(w, i)
  {
  }

  lemma RewindSeen(w: World, t: int)
    ensures var s' := DoTruncate(w.store, t);
      (s'.cur.Some? ==> s'.cur == w.store.cur && s'.seen == w.store.seen) && s'.disk.Some? == w.store.disk.Some?
  {
  }

  lemma ActionInv(w: World, a: Action)
    requires Inv(w) && CanDo(w, a)
    ensures Inv(Do(w, a))
  {
    hide Inv, Do;
    match a
    case BeginTurn(prompt, msgIndex) => BeginInv(w, prompt, msgIndex);
    case Edit(path, after) => EditInv(w, path, after);
    case Rewind(turn) => RewindInv(w, turn);
    case Reload(order) => ReloadInv(w, order);
  }

  /** Every run keeps the invariant, so every restore in it is exact. */
  lemma {:induction false} RunInv(w: World, actions: seq<Action>)
    requires Inv(w) && CanDoAll(w, actions)
    ensures Inv(DoAll(w, actions))
    decreases |actions|
  {
    hide Inv, CanDo, Do;
    if actions != [] {
      ActionInv(w, actions[0]);
      RunInv(Do(w, actions[0]), actions[1..]);
    }
  }

  lemma RestoreInEveryRun(fs: Files, persisted: bool, actions: seq<Action>, t: int)
    requires CanDoAll(Opened(fs, persisted), actions)
    ensures var w := DoAll(Opened(fs, persisted), actions);
      Restored(All(w.store), t, w.fs) == StateAt(w, t)
  {
    InitInv(fs, persisted);
    RunInv(Opened(fs, persisted), actions);
    RestoreIsExact(DoAll(Opened(fs, persisted), actions), t);
  }

  /** w still carries everything w0 had when turn t = |w0.history| was about to begin. */
  ghost predicate Remembers(w0: World, w: World) {
    var t := |w0.history|;
    |w.history| >= t && |Held(w.store)| >= t && w.history[..t] == w0.history && Held(w.store)[..t] == Held(w0.store) &&
    StateAt(w, t) == w0.fs && (|w.history| == t ==> w.store.cur.None?) && w.store.disk.Some? == w0.store.disk.Some?
  }

  predicate NotBelow(a: Action, t: int) {
    a.Rewind? ==> a.turn >= t
  }

  lemma RemembersStep(w0: World, w: World, a: Action)
    requires Inv(w0) && Inv(w) && Remembers(w0, w) && CanDo(w, a) && NotBelow(a, |w0.history|)
    ensures Remembers(w0, Do(w, a))
  {
    var t, w' := |w0.history|, Do(w, a);
    var cs, cs' := Held(w.store), Held(w'.store);
    hide Restored, Bridges, DiskOf, NextTurnOf, TruthfulChange, All, Lists, Numbered;
    match a
    case BeginTurn(prompt, msgIndex) =>
      assert cs'[..t] == cs[..t];
    case Edit(path, after) =>
      assert cs'[..|cs| - 1] == cs[..|cs| - 1];
      assert cs'[..t] == cs[..t];
    case Rewind(turn) =>
      RemembersRewind(w0, w, turn);
    case Reload(order) =>
      LoadedIsHeld(w, order);
  }

  lemma RemembersRewind(w0: World, w: World, turn: int)
    requires Inv(w) && Remembers(w0, w) && turn >= |w0.history|
    ensures Remembers(w0, Do(w, Rewind(turn)))
  {
    hide Inv, Do, DoTruncate, Held;
    var t, w' := |w0.history|, Do(w, Rewind(turn));
    var cs, n := Held(w.store), Clamp(turn, |w.history|);
    RewindShape(w, turn);
    RewindSeen(w, turn);
    TurnPerCheckpoint(w);
    if n == t {
      RewindClosesTurn(w, turn);
    }
    assert cs[..n][..t] == cs[..t] && w.history[..n][..t] == w.history[..t];
  }

  lemma TurnPerCheckpoint(w: World)
    requires Inv(w)
    ensures |Held(w.store)| == |w.history|
  {
  }

  lemma RewindClosesTurn(w: World, turn: int)
    requires Inv(w) && (turn < |Held(w.store)| || w.store.cur.None?)
    ensures DoTruncate(w.store, turn).cur.None?
  {
    var cs := Held(w.store);
    if w.store.cur.Some? {
      assert cs[|cs| - 1] == w.store.cur.value;
    }
  }

  lemma {:induction false} RemembersRun(w0: World, w: World, actions: seq<Action>)
    requires Inv(w0) && Inv(w) && Remembers(w0, w) && CanDoAll(w, actions)
    requires forall k :: 0 <= k < |actions| ==> NotBelow(actions[k], |w0.history|)
    ensures Remembers(w0, DoAll(w, actions)) && Inv(DoAll(w, actions))
    decreases |actions|
  {
    hide Inv, CanDo, Do, Remembers;
    if actions != [] {
      assert NotBelow(actions[0], |w0.history|);
      RemembersStep(w0, w, actions[0]);
      ActionInv(w, actions[0]);
      RemembersRun(w0, Do(w, actions[0]), actions[1..]);
    }
  }

  /** Begin turn t, do anything that does not itself rewind below t, then rewind to t: files,
      checkpoints, directory and numbering are as before turn t, and the next Begin leaves
      exactly the store it would have left then. */
  lemma RewindForgets(w0: World, prompt: string, msgIndex: int, actions: seq<Action>, again: string, index: int)
    requires Inv(w0)
    requires CanDoAll(Do(w0, BeginTurn(prompt, msgIndex)), actions)
    requires forall k :: 0 <= k < |actions| ==> NotBelow(actions[k], |w0.history|)
    ensures var w := Do(DoAll(Do(w0, BeginTurn(prompt, msgIndex)), actions), Rewind(|w0.history|));
      w.fs == w0.fs && All(w.store) == All(w0.store) && w.store.disk == w0.store.disk && w.history == w0.history &&
      NextTurnOf(Held(w.store)) == NextTurnOf(Held(w0.store)) == |w0.history| &&
      Do(w, BeginTurn(again, index)) == Do(w0, BeginTurn(again, index))
  {
    hide Restored, Bridges, DiskOf, All, TruthfulChange;
    var t, w1 := |w0.history|, Do(w0, BeginTurn(prompt, msgIndex));
    BeginInv(w0, prompt, msgIndex);
    assert Held(w1.store)[..t] == Held(w0.store);
    assert Remembers(w0, w1);
    RemembersRun(w0, w1, actions);
    var w2 := DoAll(w1, actions);
    RewindShape(w2, t);
    RewindSeen(w2, t);
    RewindInv(w2, t);
    NumberedNext(Held(w0.store));
    SameAfterBegin(w0, Do(w2, Rewind(t)), again, index);
  }

  lemma SameAfterBegin(w0: World, w: World, prompt: string, msgIndex: int)
    requires Inv(w0) && Inv(w) && Held(w.store) == Held(w0.store) && w.fs == w0.fs && w.history == w0.history
    requires w.store.disk.Some? == w0.store.disk.Some?
    ensures w.store.disk == w0.store.disk && All(w.store) == All(w0.store)
    ensures Do(w, BeginTurn(prompt, msgIndex)) == Do(w0, BeginTurn(prompt, msgIndex))
  {
    hide Bridges, NextTurnOf, DiskOf, SortByTurn;
  }

  // ----- reload -----

  function Range(n: nat): (r: set<int>)
    ensures |r| == n
    ensures forall k :: k in r <==> 0 <= k < n
  {
    if n == 0 then {} else Range(n - 1) + {n - 1}
  }

  lemma DistinctCount(order: seq<int>, n: nat)
    requires forall i, j :: 0 <= i < j < |order| ==> order[i] != order[j]
    requires forall k :: k in order <==> 0 <= k < n
    ensures |order| == n
  {
    var keys := set k | k in order;
    SeqSetSize(order, keys);
    assert keys == Range(n);
  }

  lemma {:induction false} SeqSetSize(order: seq<int>, keys: set<int>)
    requires forall i, j :: 0 <= i < j < |order| ==> order[i] != order[j]
    requires keys == set k | k in order
    ensures |keys| == |order|
    decreases |order|
  {
    if order != [] {
      var init, last := order[..|order| - 1], order[|order| - 1];
      var rest := set k | k in init;
      SeqSetSize(init, rest);
      assert keys == rest + {last};
    }
  }

  /** A strictly sorted sequence with the checkpoints 0..n-1 as members lists them in order. */
  lemma {:induction false} SortedFrom(cs: seq<Checkpoint>, r: seq<Checkpoint>, k: nat)
    requires Numbered(cs) && StrictTurns(r) && |r| == |cs| && k <= |cs| && r[..k] == cs[..k]
    requires forall x :: x in r <==> x in cs
    ensures r == cs
    decreases |cs| - k
  {
    if k < |cs| {
      assert cs[k] in r;
      var j :| 0 <= j < |r| && r[j] == cs[k];
      assert forall i :: 0 <= i < k ==> r[i] == r[..k][i] == cs[i];
      assert r[k].turn <= k;
      assert r[k] in cs;
      var l :| 0 <= l < |cs| && cs[l] == r[k];
      assert k > 0 ==> r[..k][k - 1] == cs[..k][k - 1];
      assert l == k;
      assert r[..k + 1] == r[..k] + [r[k]] && cs[..k + 1] == cs[..k] + [cs[k]];
      SortedFrom(cs, r, k + 1);
    } else {
      assert r == r[..k] && cs == cs[..k];
    }
  }

  lemma ReloadInv(w: World, order: seq<int>)
    requires Inv(w) && CanDo(w, Reload(order))
    ensures Inv(Do(w, Reload(order)))
  {
    var w' := Do(w, Reload(order));
    LoadedIsHeld(w, order);
    hide Bridges, DiskOf, SortByTurn, Numbered, Lists;
    forall i: nat, p | i < |Held(w'.store)| ensures Bridges(Held(w'.store)[i].files, w'.history[i], After(w', i), p) {
      assert After(w', i) == After(w, i);
    }
  }

  /** A store loaded from the directory at any point, in whatever order the directory lists its
      files, agrees with the one in memory on the list, the boundaries, the next turn number
      and every restore. */
  lemma ReloadAgrees(w: World, order: seq<int>, t: int)
    requires Inv(w) && CanDo(w, Reload(order))
    ensures var loaded := Do(w, Reload(order)).store;
      All(loaded) == All(w.store) && List(All(loaded)) == List(All(w.store)) &&
      BoundsOf(Held(loaded)) == BoundsOf(Held(w.store)) && NextTurnOf(Held(loaded)) == NextTurnOf(Held(w.store)) &&
      Restored(All(loaded), t, w.fs) == Restored(All(w.store), t, w.fs)
  {
    LoadedIsHeld(w, order);
    hide Restored, DiskOf, NextTurnOf, BoundsOf, SortByTurn, List, Lists;
    assert Held(Do(w, Reload(order)).store) == Held(w.store);
  }

  lemma LoadedIsHeld(w: World, order: seq<int>)
    requires Inv(w) && CanDo(w, Reload(order))
    ensures DoLoad(w.store.disk.value, order).done == Held(w.store)
  {
    var cs, disk := Held(w.store), w.store.disk.value;
    DiskOfMeaning(cs);
    var read := seq(|order|, i requires 0 <= i < |order| => disk[order[i]]);
    hide Bridges, DiskOf, SortByTurn, Insert;
    forall x ensures x in read <==> x in cs {
      if x in read {
        var i :| 0 <= i < |read| && read[i] == x;
        assert cs[order[i]] == x;
      }
      if x in cs {
        var i :| 0 <= i < |cs| && cs[i] == x;
        assert i in disk && i in order;
        var j :| 0 <= j < |order| && order[j] == i;
        assert read[j] == x;
      }
    }
    SortStrict(read);
    DistinctCount(order, |cs|);
    SortedFrom(cs, SortByTurn(read), 0);
  }
}
