/** The snapshot store behind rewind (internal/checkpoint/checkpoint.go): the first touch of a
    file in a turn records its content, and a restore writes the earliest records back. */
module Checkpoint {
  import opened Text

  type Encoding = string

  const UTF8: Encoding := "utf-8"

  datatype File = File(text: string, enc: Encoding)

  type Files = map<string, File>

  /** State of one file when a turn first touched it; no content means it did not exist. */
  datatype FileSnap = FileSnap(path: string, content: Option<string>, enc: Option<Encoding>)

  datatype Checkpoint = Checkpoint(turn: int, prompt: string, msgIndex: int, files: seq<FileSnap>)

  datatype Meta = Meta(turn: int, prompt: string, paths: seq<string>)

  datatype Kind = Create | Modify | Delete

  datatype Change = Change(path: string, kind: Kind, oldText: string)

  /** The store's fields; disk is the checkpoint directory by turn, None when not persisted. */
  datatype Store = Store(done: seq<Checkpoint>, cur: Option<Checkpoint>, seen: set<string>,
                         disk: Option<map<int, Checkpoint>>)

  // ----- sorting by turn -----

  predicate StrictTurns(cs: seq<Checkpoint>) {
    forall i, j :: 0 <= i < j < |cs| ==> cs[i].turn < cs[j].turn
  }

  function Insert(c: Checkpoint, cs: seq<Checkpoint>): (r: seq<Checkpoint>)
    ensures |r| == |cs| + 1
    ensures forall x :: x in r <==> x == c || x in cs
  {
    if cs == [] || c.turn <= cs[0].turn then [c] + cs else [cs[0]] + Insert(c, cs[1..])
  }

  lemma {:induction false} InsertStrict(c: Checkpoint, cs: seq<Checkpoint>)
    requires StrictTurns(cs) && forall x :: x in cs ==> x.turn != c.turn
    ensures StrictTurns(Insert(c, cs))
  {
    if cs != [] && c.turn > cs[0].turn {
      InsertStrict(c, cs[1..]);
      var rest := Insert(c, cs[1..]);
      forall j | 0 <= j < |rest| ensures cs[0].turn < rest[j].turn {
        assert rest[j] in rest;
        if rest[j] != c {
          var k :| 0 <= k < |cs[1..]| && cs[1..][k] == rest[j];
          assert cs[k + 1] == rest[j];
        }
      }
    }
  }

  /** sort.Slice by turn. */
  function SortByTurn(cs: seq<Checkpoint>): (r: seq<Checkpoint>)
    ensures |r| == |cs|
    ensures forall x :: x in r <==> x in cs
  {
    if cs == [] then [] else Insert(cs[0], SortByTurn(cs[1..]))
  }

  lemma {:induction false} SortStrict(cs: seq<Checkpoint>)
    requires forall i, j :: 0 <= i < j < |cs| ==> cs[i].turn != cs[j].turn
    ensures StrictTurns(SortByTurn(cs))
  {
    if cs != [] {
      SortStrict(cs[1..]);
      forall x | x in SortByTurn(cs[1..]) ensures x.turn != cs[0].turn {
        var k :| 0 <= k < |cs[1..]| && cs[1..][k] == x;
        assert cs[k + 1] == x;
      }
      InsertStrict(cs[0], SortByTurn(cs[1..]));
    }
  }

  function Held(s: Store): seq<Checkpoint> {
    if s.cur.Some? then s.done + [s.cur.value] else s.done
  }

  /** Every checkpoint in turn order. */
  function All(s: Store): seq<Checkpoint> {
    SortByTurn(Held(s))
  }

  // ----- reading the store -----

  function PathsOf(files: seq<FileSnap>): seq<string> {
    seq(|files|, i requires 0 <= i < |files| => files[i].path)
  }

  function List(cs: seq<Checkpoint>): seq<Meta> {
    seq(|cs|, i requires 0 <= i < |cs| => Meta(cs[i].turn, cs[i].prompt, PathsOf(cs[i].files)))
  }

  function BoundsOf(cs: seq<Checkpoint>): map<int, int> {
    if cs == [] then map[] else BoundsOf(cs[..|cs| - 1])[cs[|cs| - 1].turn := cs[|cs| - 1].msgIndex]
  }

  /** One past the highest turn, 0 when there is none. */
  function NextTurnOf(cs: seq<Checkpoint>): int {
    if cs == [] then 0
    else
      var next, last := NextTurnOf(cs[..|cs| - 1]), cs[|cs| - 1].turn;
      if last >= next then last + 1 else next
  }

  function FirstSnap(files: seq<FileSnap>, p: string): Option<FileSnap> {
    if files == [] then None
    else if files[0].path == p then Some(files[0])
    else FirstSnap(files[1..], p)
  }

  /** The earliest record of p at or after the turn. */
  function Earliest(cs: seq<Checkpoint>, from: int, p: string): Option<FileSnap> {
    if cs == [] then None
    else if cs[0].turn >= from && FirstSnap(cs[0].files, p).Some? then FirstSnap(cs[0].files, p)
    else Earliest(cs[1..], from, p)
  }

  function Lookup(fs: Files, p: string): Option<File> {
    if p in fs then Some(fs[p]) else None
  }

  /** What a record puts back, given what is there now. */
  function WrittenBack(snap: FileSnap, now: Option<File>): Option<File> {
    if snap.content.None? then None
    else if snap.enc.Some? then Some(File(snap.content.value, snap.enc.value))
    else Some(File(snap.content.value, if now.Some? then now.value.enc else UTF8))
  }

  function RestoredFile(cs: seq<Checkpoint>, from: int, fs: Files, p: string): Option<File> {
    var snap := Earliest(cs, from, p);
    if snap.None? then Lookup(fs, p) else WrittenBack(snap.value, Lookup(fs, p))
  }

  /** Why a path could not be put back: the guard, the directory or the removal failed and the
      file stayed, or the write broke off and left something behind. */
  datatype Fault = Refused(error: string) | BrokenWrite(error: string, leaves: Option<File>)

  function FaultAt(faults: map<string, Fault>, p: string): Option<Fault> {
    if p in faults then Some(faults[p]) else None
  }

  /** A recorded file after the attempt to put it back. */
  function Attempted(snap: FileSnap, now: Option<File>, fault: Option<Fault>): Option<File> {
    if fault.None? then WrittenBack(snap, now)
    else if fault.value.BrokenWrite? && snap.content.Some? then fault.value.leaves
    else now
  }

  lemma AttemptedCleanly(snap: FileSnap, now: Option<File>)
    ensures Attempted(snap, now, None) == WrittenBack(snap, now)
    ensures WrittenBack(snap, now).None? <==> snap.content.None?
  {
  }

  /** A path after a restore in which the operations on the paths in faults fail. */
  function PutBackFile(cs: seq<Checkpoint>, from: int, fs: Files, faults: map<string, Fault>, p: string): Option<File> {
    var snap := Earliest(cs, from, p);
    if snap.None? then Lookup(fs, p) else Attempted(snap.value, Lookup(fs, p), FaultAt(faults, p))
  }

  // ----- changing the store -----

  function Persist(disk: Option<map<int, Checkpoint>>, c: Checkpoint): Option<map<int, Checkpoint>> {
    if disk.None? then None else Some(disk.value[c.turn := c])
  }

  function DoBegin(s: Store, turn: int, prompt: string, msgIndex: int): Store {
    var c := Checkpoint(turn, prompt, msgIndex, []);
    Store(Held(s), Some(c), {}, Persist(s.disk, c))
  }

  /** enc is the encoding detected for a path that exists. */
  function DoSnapshot(s: Store, ch: Change, enc: Option<Encoding>): Store {
    if ch.path == "" || s.cur.None? || ch.path in s.seen then s
    else
      var snap := if ch.kind.Create? then FileSnap(ch.path, None, None) else FileSnap(ch.path, Some(ch.oldText), enc);
      var c := s.cur.value.(files := s.cur.value.files + [snap]);
      s.(cur := Some(c), seen := s.seen + {ch.path}, disk := Persist(s.disk, c))
  }

  function Before(cs: seq<Checkpoint>, turn: int): seq<Checkpoint> {
    if cs == [] then []
    else Before(cs[..|cs| - 1], turn) + (if cs[|cs| - 1].turn >= turn then [] else [cs[|cs| - 1]])
  }

  function TurnsFrom(cs: seq<Checkpoint>, turn: int): set<int> {
    set c | c in cs && c.turn >= turn :: c.turn
  }

  lemma TurnsFromAppend(cs: seq<Checkpoint>, c: Checkpoint, turn: int)
    ensures TurnsFrom(cs + [c], turn) == TurnsFrom(cs, turn) + (if c.turn >= turn then {c.turn} else {})
  {
  }

  function DoTruncate(s: Store, from: int): Store {
    var cutCur := s.cur.Some? && s.cur.value.turn >= from;
    Store(Before(s.done, from), if cutCur then None else s.cur, if cutCur then {} else s.seen,
          if s.disk.None? then None else Some(s.disk.value - TurnsFrom(Held(s), from)))
  }

  /** The store read back from the directory; order is how the directory lists its files. */
  function DoLoad(disk: map<int, Checkpoint>, order: seq<int>): Store
    requires forall i :: 0 <= i < |order| ==> order[i] in disk
  {
    Store(SortByTurn(seq(|order|, i requires 0 <= i < |order| => disk[order[i]])), None, {}, Some(disk))
  }

  // ----- the objects -----

  class Workspace {
    var files: Files

    constructor (files: Files)
      ensures this.files == files
    {
      this.files := files;
    }

    /** Writes one record back, or removes the file when the record says it did not exist, unless
        that fails. */
    method PutBack(snap: FileSnap, p: string, fault: Option<Fault>) returns (existed: bool)
      modifies this
      ensures forall q :: q != p ==> Lookup(files, q) == Lookup(old(files), q)
      ensures Lookup(files, p) == Attempted(snap, Lookup(old(files), p), fault)
      ensures existed <==> p in old(files)
    {
      existed := p in files;
      if fault.Some? {
        if fault.value.BrokenWrite? && snap.content.Some? {
          files := if fault.value.leaves.Some? then files[p := fault.value.leaves.value] else files - {p};
        }
        return;
      }
      if snap.content.None? {
        files := files - {p};
        return;
      }
      var enc := UTF8;
      if snap.enc.Some? {
        enc := snap.enc.value;
      } else if p in files {
        enc := files[p].enc;
      }
      files := files[p := File(snap.content.value, enc)];
    }
  }

  class CheckpointStore {
    var done: seq<Checkpoint>
    var cur: Option<Checkpoint>
    var seen: set<string>
    var disk: Option<map<int, Checkpoint>>

    function State(): Store
      reads this
    {
      Store(done, cur, seen, disk)
    }

    constructor (disk: Option<map<int, Checkpoint>>, order: seq<int>)
      requires forall i :: 0 <= i < |order| ==> disk.Some? && order[i] in disk.value
      ensures State() == if disk.None? then Store([], None, {}, None) else DoLoad(disk.value, order)
    {
      this.disk := disk;
      cur, seen := None, {};
      var loaded: seq<Checkpoint> := [];
      if disk.Some? {
        for i := 0 to |order|
          invariant loaded == seq(i, k requires 0 <= k < i => disk.value[order[k]])
        {
          loaded := loaded + [disk.value[order[i]]];
        }
        loaded := SortByTurn(loaded);
      }
      done := loaded;
    }

    method Begin(turn: int, prompt: string, msgIndex: int)
      modifies this
      ensures State() == DoBegin(old(State()), turn, prompt, msgIndex)
    {
      if cur.Some? {
        done := done + [cur.value];
      }
      cur := Some(Checkpoint(turn, prompt, msgIndex, []));
      seen := {};
      disk := Persist(disk, cur.value);
    }

    method Snapshot(ch: Change, ws: Workspace)
      modifies this
      ensures State() == DoSnapshot(old(State()), ch, if ch.path in ws.files then Some(ws.files[ch.path].enc) else None)
    {
      if ch.path == "" {
        return;
      }
      var enc: Option<Encoding> := None;
      if !ch.kind.Create? && ch.path in ws.files {
        enc := Some(ws.files[ch.path].enc);
      }
      if cur.None? || ch.path in seen {
        return;
      }
      seen := seen + {ch.path};
      var content: Option<string> := None;
      if !ch.kind.Create? {
        content := Some(ch.oldText);
      }
      cur := Some(cur.value.(files := cur.value.files + [FileSnap(ch.path, content, enc)]));
      disk := Persist(disk, cur.value);
    }

    method Bounds() returns (m: map<int, int>)
      ensures m == BoundsOf(Held(State()))
    {
      m := map[];
      for i := 0 to |done|
        invariant m == BoundsOf(done[..i])
      {
        assert done[..i + 1][..i] == done[..i];
        m := m[done[i].turn := done[i].msgIndex];
      }
      assert done[..|done|] == done;
      if cur.Some? {
        assert (done + [cur.value])[..|done|] == done;
        m := m[cur.value.turn := cur.value.msgIndex];
      }
    }

    method NextTurn() returns (next: int)
      ensures next == NextTurnOf(Held(State()))
    {
      next := 0;
      for i := 0 to |done|
        invariant next == NextTurnOf(done[..i])
      {
        assert done[..i + 1][..i] == done[..i];
        if done[i].turn >= next {
          next := done[i].turn + 1;
        }
      }
      assert done[..|done|] == done;
      if cur.Some? {
        assert (done + [cur.value])[..|done|] == done;
        if cur.value.turn >= next {
          next := cur.value.turn + 1;
        }
      }
    }

    method TruncateFrom(fromTurn: int)
      modifies this
      ensures State() == DoTruncate(old(State()), fromTurn)
    {
      var kept: seq<Checkpoint> := [];
      var deleteTurns: set<int> := {};
      var all := done;
      for i := 0 to |all|
        invariant kept == Before(all[..i], fromTurn)
        invariant deleteTurns == TurnsFrom(all[..i], fromTurn)
        invariant State() == old(State())
      {
        assert all[..i + 1][..i] == all[..i];
        assert all[..i + 1] == all[..i] + [all[i]];
        TurnsFromAppend(all[..i], all[i], fromTurn);
        if all[i].turn >= fromTurn {
          deleteTurns := deleteTurns + {all[i].turn};
        } else {
          kept := kept + [all[i]];
        }
      }
      assert all[..|all|] == all;
      done := kept;
      if cur.Some? {
        TurnsFromAppend(all, cur.value, fromTurn);
      }
      if cur.Some? && cur.value.turn >= fromTurn {
        deleteTurns := deleteTurns + {cur.value.turn};
        cur, seen := None, {};
      }
      assert deleteTurns == TurnsFrom(old(Held(State())), fromTurn);
      if disk.Some? {
        disk := Some(disk.value - deleteTurns);
      }
    }

    /** Puts every file touched in fromTurn or later back to its earliest record; a path that
        fails is skipped and reported. */
    method RestoreCode(fromTurn: int, ws: Workspace, faults: map<string, Fault>)
      returns (written: seq<string>, deleted: seq<string>, err: Option<string>)
      modifies ws
      ensures forall p :: Lookup(ws.files, p) == PutBackFile(All(State()), fromTurn, old(ws.files), faults, p)
      ensures forall p :: p in written <==>
        p !in faults && Earliest(All(State()), fromTurn, p).Some? &&
        Earliest(All(State()), fromTurn, p).value.content.Some?
      ensures forall p :: p in deleted <==> p !in faults && p in old(ws.files) && p !in ws.files
      ensures err.None? <==> forall p :: p in faults ==> Earliest(All(State()), fromTurn, p).None?
      ensures err.Some? ==> exists p ::
        p in faults && Earliest(All(State()), fromTurn, p).Some? && err.value == faults[p].error
    {
      var cs := SortByTurn(Held(State()));
      var earliest, order := FirstRecords(cs, fromTurn);
      hide Earliest, FirstSnap, Attempted, WrittenBack, SortByTurn;
      ghost var before := ws.files;
      written, deleted, err := PutBackAll(order, earliest, ws, faults);
      forall p ensures p in deleted <==> p !in faults && p in before && p !in ws.files {
        assert Lookup(ws.files, p).None? <==> p !in ws.files;
        if p in order && p !in faults {
          AttemptedCleanly(earliest[p], Lookup(before, p));
        }
      }
    }
  }

  /** The loop of a restore over the recorded paths. */
  method PutBackAll(order: seq<string>, earliest: map<string, FileSnap>, ws: Workspace, faults: map<string, Fault>)
    returns (written: seq<string>, deleted: seq<string>, err: Option<string>)
    requires forall p :: p in order <==> p in earliest
    requires forall i, j :: 0 <= i < j < |order| ==> order[i] != order[j]
    modifies ws
    ensures forall p :: p in earliest ==>
      Lookup(ws.files, p) == Attempted(earliest[p], Lookup(old(ws.files), p), FaultAt(faults, p))
    ensures forall p :: p !in earliest ==> Lookup(ws.files, p) == Lookup(old(ws.files), p)
    ensures forall p :: p in written <==> p in earliest && p !in faults && earliest[p].content.Some?
    ensures forall p ::
      p in deleted <==> p in earliest && p !in faults && earliest[p].content.None? && p in old(ws.files)
    ensures err.None? <==> forall p :: p in earliest ==> p !in faults
    ensures err.Some? ==> exists p :: p in earliest && p in faults && err.value == faults[p].error
  {
    hide Attempted, WrittenBack;
    written, deleted, err := [], [], None;
    ghost var before := ws.files;
    for i := 0 to |order|
      invariant forall p ::
        Lookup(ws.files, p) ==
          if p in order[..i] then Attempted(earliest[p], Lookup(before, p), FaultAt(faults, p)) else Lookup(before, p)
      invariant forall p :: p in written <==> p in order[..i] && p !in faults && earliest[p].content.Some?
      invariant forall p ::
        p in deleted <==> p in order[..i] && p !in faults && earliest[p].content.None? && p in before
      invariant err.None? <==> forall p :: p in order[..i] ==> p !in faults
      invariant err.Some? ==> exists p :: p in order[..i] && p in faults && err.value == faults[p].error
    {
      var p := order[i];
      assert order[..i + 1] == order[..i] + [p];
      assert p !in order[..i];
      var fault := FaultAt(faults, p);
      var existed := ws.PutBack(earliest[p], p, fault);
      if fault.Some? {
        err := Some(fault.value.error);
      } else if earliest[p].content.Some? {
        written := written + [p];
      } else if existed {
        deleted := deleted + [p];
      }
    }
    assert order[..|order|] == order;
  }

  /** The earliest record per path, and the paths in order of first record. */
  method FirstRecords(cs: seq<Checkpoint>, from: int) returns (earliest: map<string, FileSnap>, order: seq<string>)
    ensures forall p :: p in earliest <==> Earliest(cs, from, p).Some?
    ensures forall p :: p in earliest ==> earliest[p] == Earliest(cs, from, p).value
    ensures forall p :: p in order <==> p in earliest
    ensures forall i, j :: 0 <= i < j < |order| ==> order[i] != order[j]
  {
    earliest, order := map[], [];
    for k := 0 to |cs|
      invariant forall p ::
        Earliest(cs, from, p) == if p in earliest then Some(earliest[p]) else Earliest(cs[k..], from, p)
      invariant forall p :: p in order <==> p in earliest
      invariant forall i, j :: 0 <= i < j < |order| ==> order[i] != order[j]
    {
      assert cs[k..][1..] == cs[k + 1..];
      if cs[k].turn < from {
        continue;
      }
      var files := cs[k].files;
      for l := 0 to |files|
        invariant forall p ::
          Earliest(cs, from, p) ==
            if p in earliest then Some(earliest[p])
            else if FirstSnap(files[l..], p).Some? then FirstSnap(files[l..], p)
            else Earliest(cs[k + 1..], from, p)
        invariant forall p :: p in order <==> p in earliest
        invariant forall i, j :: 0 <= i < j < |order| ==> order[i] != order[j]
      {
        assert files[l..][1..] == files[l + 1..];
        if files[l].path !in earliest {
          earliest := earliest[files[l].path := files[l]];
          order := order + [files[l].path];
        }
      }
    }
  }
}
