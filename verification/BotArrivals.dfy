/** What becomes of every message that arrives at the bot, and which of them share a turn, read off
    the arrivals alone. */
module BotArrivals {
  import opened Text
  import opened BotQueue
  import opened BotQueueTheory

  /** An accepted message, whether it was sent to be collected, and when it came. */
  datatype Arrival = Arrival(msg: Message, collects: bool, now: int)

  type Groups = seq<seq<Arrival>>

  predicate Collects(opts: Options) {
    ToLower(TrimSpace(opts.mode)) == "collect"
  }

  predicate RefusesNew(opts: Options) {
    ToLower(TrimSpace(opts.drop)) == "new"
  }

  predicate Summarizes(opts: Options) {
    ToLower(TrimSpace(opts.drop)) !in {"old", "new"}
  }

  function Limit(opts: Options): nat {
    if opts.cap <= 0 then 20 else opts.cap
  }

  /** Two messages in a row share a turn: the later one is to be collected, has a text and comes
      within the window. */
  predicate Joins(a: Arrival, b: Arrival, debounce: int) {
    b.collects && b.msg.text != "" && b.now - a.now < debounce
  }

  function LastOf(group: seq<Arrival>): Arrival
    requires group != []
  {
    group[|group| - 1]
  }

  function MsgsOf(group: seq<Arrival>): seq<Message> {
    seq(|group|, i requires 0 <= i < |group| => group[i].msg)
  }

  function AllMsgs(groups: Groups): seq<seq<Message>> {
    seq(|groups|, i requires 0 <= i < |groups| => MsgsOf(groups[i]))
  }

  /** The waiting turns are the groups: their messages merged, the mode and time of the last. */
  predicate Mirrors(queue: seq<PendingTurn>, groups: Groups) {
    Matches(queue, AllMsgs(groups)) && |queue| == |groups| &&
    forall k :: 0 <= k < |groups| ==> MirrorsLast(queue[k], groups[k])
  }

  predicate MirrorsLast(turn: PendingTurn, group: seq<Arrival>) {
    group != [] && turn.timestamp == LastOf(group).now &&
    turn.mode == if LastOf(group).collects then Collect else Followup
  }

  // ----- arriving -----

  datatype Fate = StartsTurn | Passes | Refused | Waits

  /** What becomes of a message: it starts a turn if none runs, a slash command passes a running
      one, a full queue may refuse it, and otherwise it waits. */
  function FateOf(active: bool, groups: Groups, msg: Message, opts: Options): Fate {
    if !active then StartsTurn
    else if IsSlashBypass(msg.text) then Passes
    else if |groups| >= Limit(opts) && RefusesNew(opts) then Refused
    else Waits
  }

  /** A full queue loses its oldest turn to the newcomer. */
  function WithRoom(groups: Groups, opts: Options): Groups {
    if |groups| >= Limit(opts) && groups != [] then groups[1..] else groups
  }

  function Joined(groups: Groups, a: Arrival, debounce: int): Groups {
    if groups != [] && groups[|groups| - 1] != [] && Joins(LastOf(groups[|groups| - 1]), a, debounce)
    then groups[|groups| - 1 := groups[|groups| - 1] + [a]]
    else groups + [[a]]
  }

  lemma SameWords(opts: Options)
    ensures QueueingMode(opts) == if Collects(opts) then Collect else Followup
    ensures NormalizeQueueDrop(opts.drop).DropNew? <==> RefusesNew(opts)
    ensures NormalizeQueueDrop(opts.drop).Summarize? <==> Summarizes(opts)
    ensures CapOf(opts) == Limit(opts)
  {
  }

  lemma AppendedMsgs(group: seq<Arrival>, a: Arrival)
    ensures MsgsOf(group + [a]) == MsgsOf(group) + [a.msg]
  {
  }

  lemma JoinedMsgs(groups: Groups, a: Arrival, debounce: int)
    ensures AllMsgs(groups + [[a]]) == AllMsgs(groups) + [[a.msg]]
    ensures groups != [] ==>
      var n := |groups| - 1;
      AllMsgs(groups[n := groups[n] + [a]]) == AllMsgs(groups)[n := AllMsgs(groups)[n] + [a.msg]]
  {
    assert MsgsOf([a]) == [a.msg];
    if groups != [] {
      AppendedMsgs(groups[|groups| - 1], a);
    }
    hide MsgsOf;
  }

  lemma EnqueueMirrors(queue: seq<PendingTurn>, groups: Groups, a: Arrival, debounce: int)
    requires Mirrors(queue, groups)
    ensures Mirrors(Enqueue(queue, a.msg, if a.collects then Collect else Followup, a.now, debounce),
                    Joined(groups, a, debounce))
  {
    hide Matches, AppendText;
    var mode := if a.collects then Collect else Followup;
    EnqueueMatches(queue, AllMsgs(groups), a.msg, mode, a.now, debounce);
    JoinedMsgs(groups, a, debounce);
    hide AllMsgs, MsgsOf;
    if queue != [] {
      assert MirrorsLast(queue[|queue| - 1], groups[|groups| - 1]);
    }
  }

  lemma RoomMirrors(s: Slot, groups: Groups, opts: Options)
    requires Mirrors(s.queue, groups)
    ensures Mirrors(MakeRoom(s, opts).queue, WithRoom(groups, opts)) && MakeRoom(s, opts).active == s.active
    ensures MakeRoom(s, opts).dropped ==
      if |groups| >= Limit(opts) && Summarizes(opts) then s.dropped + [QueueSummary(s.queue[0].msg.text)] else s.dropped
  {
    SameWords(opts);
    hide NormalizeQueueDrop, QueueSummary, Matches, MirrorsLast;
    if |groups| >= Limit(opts) {
      MatchesRest(s.queue, AllMsgs(groups), 1);
      assert AllMsgs(groups)[1..] == AllMsgs(groups[1..]);
    }
  }

  /** Every arrival gets exactly the fate its circumstances call for, the result says so, and the
      waiting turns are those of the groups. */
  lemma ArrivesExactly(s: Slot, groups: Groups, msg: Message, opts: Options, now: int, debounce: int)
    requires Mirrors(s.queue, groups)
    ensures var (next, r) := Acquire(s, msg, opts, now, debounce);
      var fate := FateOf(s.active, groups, msg, opts);
      (r.acquired <==> fate.StartsTurn? || fate.Passes?) && (r.rejected <==> fate.Refused?) &&
      (r.queued <==> fate.Waits?) &&
      r.mode == (if Collects(opts) then Collect else Followup) && next.active &&
      match fate
      case StartsTurn => next == s.(active := true)
      case Passes => next == s
      case Refused => next == s && r.pending == |groups|
      case Waits =>
        var after := Joined(WithRoom(groups, opts), Arrival(msg, Collects(opts), now), debounce);
        Mirrors(next.queue, after) && r.pending == |after| && next.dropped == MakeRoom(s, opts).dropped &&
        (r.dropped <==> next.dropped != [])
  {
    hide IsSlashBypass, NormalizeQueueDrop, QueueSummary, Mirrors, Enqueue, MakeRoom, Collects, RefusesNew, Summarizes;
    SameWords(opts);
    MirrorsSize(s.queue, groups);
    if FateOf(s.active, groups, msg, opts).Waits? {
      var a, room := Arrival(msg, Collects(opts), now), WithRoom(groups, opts);
      AcquireQueued(s, msg, opts, now, debounce);
      RoomMirrors(s, groups, opts);
      EnqueueMirrors(MakeRoom(s, opts).queue, room, a, debounce);
      hide QueueingMode, Joined;
      MirrorsSize(Enqueue(MakeRoom(s, opts).queue, msg, QueueingMode(opts), now, debounce), Joined(room, a, debounce));
    }
  }

  lemma MirrorsSize(queue: seq<PendingTurn>, groups: Groups)
    requires Mirrors(queue, groups)
    ensures |queue| == |groups|
  {
  }

  // ----- releasing -----

  /** The groups that go out together: all of them if the last message of the oldest is collected,
      else the oldest. */
  function GoingOut(groups: Groups): (n: nat)
    ensures n <= |groups|
  {
    if groups == [] then 0 else if groups[0] != [] && LastOf(groups[0]).collects then |groups| else 1
  }

  /** A release hands out exactly these groups, behind the note of what was dropped, keeps the key
      active and leaves the others; with none waiting the key is free. */
  lemma ReleasesExactly(s: Slot, groups: Groups)
    requires Mirrors(s.queue, groups)
    ensures var (next, out) := ReleaseSlot(s);
      if groups == [] then out == None && next == Slot(false, [], [])
      else
        var n := GoingOut(groups);
        Mirrors(next.queue, groups[n..]) && next.active == s.active && next.dropped == [] && out.Some? &&
        groups[0] != [] && out.value.other == groups[0][0].msg.other &&
        out.value.text == WithNote(s.dropped, JoinLines(GroupLines(AllMsgs(groups)[..n])))
  {
    hide Matches, JoinLines, GroupLines, WithNote, MergedText;
    MirrorsSize(s.queue, groups);
    if groups != [] {
      var n := GoingOut(groups);
      assert MirrorsLast(s.queue[0], groups[0]) && n == Taken(s.queue);
      MatchesRest(s.queue, AllMsgs(groups), n);
      assert AllMsgs(groups)[n..] == AllMsgs(groups[n..]);
      MergedIsJoined(s.queue, AllMsgs(groups), n);
      FirstPart(s.queue, AllMsgs(groups), 1);
    }
  }

  // ----- runs -----

  datatype Event =
    | Arrives(msg: Message, opts: Options, now: int)
    | Interrupts(msg: Message, now: int)
    | Finishes
    | IsForced

  datatype Watched = Watched(active: bool, groups: Groups)

  const IDLE := Watched(false, [])

  /** What an event does to the groups, without looking at the slot. */
  function After(w: Watched, e: Event, debounce: int): Watched {
    match e
    case Arrives(msg, opts, now) =>
      if FateOf(w.active, w.groups, msg, opts).Waits? then
        Watched(true, Joined(WithRoom(w.groups, opts), Arrival(msg, Collects(opts), now), debounce))
      else w.(active := true)
    case Interrupts(msg, now) => if !w.active then w.(active := true) else w.(groups := [[Arrival(msg, false, now)]])
    case Finishes => if w.groups == [] then IDLE else w.(groups := w.groups[GoingOut(w.groups)..])
    case IsForced => IDLE
  }

  function Happens(s: Slot, e: Event, debounce: int): Slot {
    match e
    case Arrives(msg, opts, now) => Acquire(s, msg, opts, now, debounce).0
    case Interrupts(msg, now) => Replace(s, msg, now).0
    case Finishes => ReleaseSlot(s).0
    case IsForced => EMPTY
  }

  lemma EventMirrors(s: Slot, w: Watched, e: Event, debounce: int)
    requires s.active == w.active && Mirrors(s.queue, w.groups)
    ensures var s', w' := Happens(s, e, debounce), After(w, e, debounce);
      s'.active == w'.active && Mirrors(s'.queue, w'.groups)
  {
    hide Mirrors, Acquire, ReleaseSlot, FateOf, Joined, GoingOut;
    NothingMirrors();
    match e
    case Arrives(msg, opts, now) => ArrivesExactly(s, w.groups, msg, opts, now, debounce);
    case Interrupts(msg, now) => OneMirrors(msg, now);
    case Finishes => ReleasesExactly(s, w.groups);
    case IsForced =>
  }

  lemma NothingMirrors()
    ensures Mirrors([], [])
  {
  }

  lemma OneMirrors(msg: Message, now: int)
    ensures Mirrors([PendingTurn(msg, now, Followup)], [[Arrival(msg, false, now)]])
  {
    GroupTextOne(msg);
    assert MsgsOf([Arrival(msg, false, now)]) == [msg];
  }

  function HappenAll(s: Slot, events: seq<Event>, debounce: int): Slot
    decreases |events|
  {
    if events == [] then s else HappenAll(Happens(s, events[0], debounce), events[1..], debounce)
  }

  function AfterAll(w: Watched, events: seq<Event>, debounce: int): Watched
    decreases |events|
  {
    if events == [] then w else AfterAll(After(w, events[0], debounce), events[1..], debounce)
  }

  /** Messages that wait in a row share a turn if and only if they join. */
  predicate Spaced(groups: Groups, debounce: int) {
    (forall k :: 0 <= k < |groups| ==> groups[k] != []) &&
    (forall k, i :: 0 <= k < |groups| && 0 < i < |groups[k]| ==> Joins(groups[k][i - 1], groups[k][i], debounce)) &&
    forall k :: 0 < k < |groups| ==> Apart(groups[k - 1], groups[k], debounce)
  }

  predicate Apart(a: seq<Arrival>, b: seq<Arrival>, debounce: int) {
    a != [] && b != [] && !Joins(LastOf(a), b[0], debounce)
  }

  lemma AfterSpaced(w: Watched, e: Event, debounce: int)
    requires Spaced(w.groups, debounce)
    ensures Spaced(After(w, e, debounce).groups, debounce)
  {
    hide FateOf, Joins, Collects;
    match e
    case Arrives(msg, opts, now) =>
      RoomSpaced(w.groups, opts, debounce);
      JoinedSpaced(WithRoom(w.groups, opts), Arrival(msg, Collects(opts), now), debounce);
    case _ =>
  }

  lemma RoomSpaced(groups: Groups, opts: Options, debounce: int)
    requires Spaced(groups, debounce)
    ensures Spaced(WithRoom(groups, opts), debounce)
  {
    hide Joins;
  }

  lemma JoinedSpaced(groups: Groups, a: Arrival, debounce: int)
    requires Spaced(groups, debounce)
    ensures Spaced(Joined(groups, a, debounce), debounce)
  {
    hide Joins;
  }

  /** Over any run the waiting turns are exactly the groups that the arrivals make: each turn the
      texts of its group, and two messages that wait in a row share a turn if and only if the
      later one is to be collected, has a text and came within the window. */
  lemma {:induction false} WaitingIsGrouped(s: Slot, w: Watched, events: seq<Event>, debounce: int)
    requires s.active == w.active && Mirrors(s.queue, w.groups) && Spaced(w.groups, debounce)
    ensures var s', w' := HappenAll(s, events, debounce), AfterAll(w, events, debounce);
      s'.active == w'.active && Mirrors(s'.queue, w'.groups) && Spaced(w'.groups, debounce)
    decreases |events|
  {
    hide Mirrors, Spaced, Happens, After;
    if events != [] {
      EventMirrors(s, w, events[0], debounce);
      AfterSpaced(w, events[0], debounce);
      WaitingIsGrouped(Happens(s, events[0], debounce), After(w, events[0], debounce), events[1..], debounce);
    }
  }

  lemma EveryRunIsGrouped(events: seq<Event>, debounce: int)
    ensures var s, w := HappenAll(EMPTY, events, debounce), AfterAll(IDLE, events, debounce);
      s.active == w.active && Mirrors(s.queue, w.groups) && Spaced(w.groups, debounce)
  {
    hide Mirrors;
    NothingMirrors();
    WaitingIsGrouped(EMPTY, IDLE, events, debounce);
  }

  // ----- what a note says -----

  /** A summary is the trimmed text, cut to 180 runes with three dots, or says that it is empty. */
  lemma SummaryExactly(text: string)
    ensures var t, s := TrimSpace(text), QueueSummary(text);
      if t == "" then s == "(empty message)" else if |t| <= 180 then s == t else |s| == 183 && s[..180] == t[..180]
  {
    hide TrimSpace;
  }

  /** A note in front of a text shows the first three drops and how many more there were, and
      the text follows it. */
  lemma NoteShows(dropped: seq<string>, text: string) returns (before: string)
    requires dropped != []
    ensures var shown := if |dropped| < 3 then |dropped| else 3;
      WithNote(dropped, text) == before + Bullets(dropped, shown) +
        (if |dropped| > 3 then "\n- ... and " + Decimal(|dropped| - 3) + " more" else "") + "]\n\n" + text
  {
    hide Decimal, Bullets, NoteWording;
    before := NOTE_HEAD + Decimal(|dropped|) + NoteWording();
  }
}
