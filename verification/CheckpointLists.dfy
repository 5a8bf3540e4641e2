/** What the list of checkpoints shows after any run: each live turn with its prompt, its message
    boundary and the files it touched. */
module CheckpointLists {
  import opened Text
  import opened Checkpoint
  import opened CheckpointTheory

  /** A turn as it was begun, and the paths edited in it, each once, in order. */
  datatype TurnRecord = TurnRecord(prompt: string, msgIndex: int, touched: seq<string>)

  /** The live turns after an action. */
  function Recorded(turns: seq<TurnRecord>, a: Action): seq<TurnRecord> {
    match a
    case BeginTurn(prompt, msgIndex) => turns + [TurnRecord(prompt, msgIndex, [])]
    case Edit(path, _) =>
      if turns == [] || path in turns[|turns| - 1].touched then turns
      else
        var last := turns[|turns| - 1];
        turns[|turns| - 1 := last.(touched := last.touched + [path])]
    case Rewind(turn) => turns[..Clamp(turn, |turns|)]
    case Reload(_) => turns
  }

  function RecordedAll(turns: seq<TurnRecord>, actions: seq<Action>): seq<TurnRecord>
    decreases |actions|
  {
    if actions == [] then turns else RecordedAll(Recorded(turns, actions[0]), actions[1..])
  }

  predicate Tells(c: Checkpoint, i: int, r: TurnRecord) {
    c.turn == i && c.prompt == r.prompt && c.msgIndex == r.msgIndex && PathsOf(c.files) == r.touched
  }

  /** The checkpoints tell the turns, and the open one knows which paths it has. */
  ghost predicate TellsAll(s: Store, turns: seq<TurnRecord>) {
    |Held(s)| == |turns| && (forall i :: 0 <= i < |turns| ==> Tells(Held(s)[i], i, turns[i])) &&
    (s.cur.Some? ==> turns != [] && forall p :: p in s.seen <==> p in turns[|turns| - 1].touched)
  }

  lemma ActionTells(w: World, a: Action, turns: seq<TurnRecord>)
    requires Inv(w) && CanDo(w, a) && TellsAll(w.store, turns)
    ensures TellsAll(Do(w, a).store, Recorded(turns, a))
  {
    hide Inv, Tells;
    match a
    case BeginTurn(prompt, msgIndex) => BeginTells(w, prompt, msgIndex, turns);
    case Edit(path, after) => EditTells(w, path, after, turns);
    case Rewind(turn) =>
      RewindShape(w, turn);
      RewindSeen(w, turn);
      RewindOpen(w, turn);
    case Reload(order) => LoadedIsHeld(w, order);
  }

  lemma BeginTells(w: World, prompt: string, msgIndex: int, turns: seq<TurnRecord>)
    requires Inv(w) && TellsAll(w.store, turns)
    ensures TellsAll(Do(w, BeginTurn(prompt, msgIndex)).store, Recorded(turns, BeginTurn(prompt, msgIndex)))
  {
    hide Bridges, DiskOf, NextTurnOf;
    NumberedNext(Held(w.store));
    var cs := Held(w.store);
    assert forall i :: 0 <= i < |cs| ==> Tells(cs[i], i, turns[i]);
  }

  lemma EditTells(w: World, path: string, after: Option<File>, turns: seq<TurnRecord>)
    requires CanDo(w, Edit(path, after)) && TellsAll(w.store, turns)
    ensures TellsAll(Do(w, Edit(path, after)).store, Recorded(turns, Edit(path, after)))
  {
    hide EncodingOf, SetFile;
    var last, cs := |turns| - 1, Held(w.store);
    assert Tells(cs[last], last, turns[last]);
    if path !in w.store.seen {
      var cs' := Held(Do(w, Edit(path, after)).store);
      assert cs'[..last] == cs[..last] && |cs'| == |cs|;
      assert PathsOf(cs'[last].files) == PathsOf(cs[last].files) + [path];
      forall i | 0 <= i < last ensures Tells(cs'[i], i, turns[i]) {
        assert cs'[i] == cs'[..last][i] == cs[i];
      }
    }
  }

  /** A rewind that leaves a turn open leaves all of them. */
  lemma RewindOpen(w: World, turn: int)
    requires Inv(w)
    ensures DoTruncate(w.store, turn).cur.Some? ==> Clamp(turn, |Held(w.store)|) == |Held(w.store)|
  {
    hide Bridges, DiskOf;
    if turn < |Held(w.store)| {
      RewindClosesTurn(w, turn);
    }
  }

  lemma {:induction false} RunTells(w: World, actions: seq<Action>, turns: seq<TurnRecord>)
    requires Inv(w) && CanDoAll(w, actions) && TellsAll(w.store, turns)
    ensures TellsAll(DoAll(w, actions).store, RecordedAll(turns, actions)) && Inv(DoAll(w, actions))
    decreases |actions|
  {
    hide Inv, CanDo, Do, TellsAll, Recorded;
    if actions != [] {
      ActionTells(w, actions[0], turns);
      ActionInv(w, actions[0]);
      RunTells(Do(w, actions[0]), actions[1..], Recorded(turns, actions[0]));
    }
  }

  lemma {:induction false} BoundsAre(cs: seq<Checkpoint>)
    requires Numbered(cs)
    ensures forall i :: i in BoundsOf(cs) <==> 0 <= i < |cs|
    ensures forall i :: 0 <= i < |cs| ==> BoundsOf(cs)[i] == cs[i].msgIndex
  {
    if cs != [] {
      BoundsAre(cs[..|cs| - 1]);
    }
  }

  /** In every run of begins, edits, rewinds and reloads the list shows exactly the live turns, in
      order, with the prompts they were begun with and the paths edited in each; the boundaries
      are those they were begun with; and the next turn's number is theirs. */
  lemma ListTellsEveryRun(fs: Files, persisted: bool, actions: seq<Action>)
    requires CanDoAll(Opened(fs, persisted), actions)
    ensures var s, turns := DoAll(Opened(fs, persisted), actions).store, RecordedAll([], actions);
      |List(All(s))| == |turns| && NextTurnOf(Held(s)) == |turns| &&
      (forall i :: 0 <= i < |turns| ==> List(All(s))[i] == Meta(i, turns[i].prompt, turns[i].touched)) &&
      (forall i :: i in BoundsOf(Held(s)) <==> 0 <= i < |turns|) &&
      forall i :: 0 <= i < |turns| ==> BoundsOf(Held(s))[i] == turns[i].msgIndex
  {
    hide DoAll, CanDoAll, RecordedAll, Bridges, DiskOf, SortByTurn, BoundsOf, NextTurnOf;
    InitInv(fs, persisted);
    assert TellsAll(Opened(fs, persisted).store, []);
    RunTells(Opened(fs, persisted), actions, []);
    var s, turns := DoAll(Opened(fs, persisted), actions).store, RecordedAll([], actions);
    assert Numbered(Held(s));
    SortedSortsItself(Held(s));
    BoundsAre(Held(s));
    NumberedNext(Held(s));
    forall i | 0 <= i < |turns| ensures Tells(Held(s)[i], i, turns[i]) {
    }
  }
}
