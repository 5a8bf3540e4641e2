/** What the bot's queue guarantees over every run: nothing accepted is lost or doubled, order
    is kept, drops are reported, and one turn runs at a time. One key is followed; the
    manager's methods leave every other key alone. */
module BotQueueTheory {
  import opened Text
  import opened BotQueue

  /** DroppedAtCap records the queue length and cap at the drop; Discarded is an interrupt or
      a forced release. */
  datatype Fate = Delivered | DroppedAtCap(length: nat, cap: nat) | Discarded

  datatype Out = Out(msg: Message, fate: Fate)

  /** One turn handed to a caller: the message it got, the accepted messages that went into it by
      waiting turn and in one list, the drops it reports and its text after the note. */
  datatype Delivery = Delivery(msg: Message, groups: seq<seq<Message>>, parts: seq<Message>, reported: seq<string>,
                               body: string)

  /** The slot with its history: waiting[i] are the messages merged into queue[i], left is
      everything that left the queue in order, summaries every drop made under "summarize". */
  datatype Track = Track(slot: Slot, holders: int, waiting: seq<seq<Message>>, accepted: seq<Message>,
                         left: seq<Out>, deliveries: seq<Delivery>, summaries: seq<string>)

  datatype Step =
    | Arrive(msg: Message, opts: Options, now: int)
    | Interrupted(msg: Message, now: int)
    | Finish
    | Forced

  const START := Track(EMPTY, 0, [], [], [], [], [])

  function Flat(groups: seq<seq<Message>>): seq<Message> {
    if groups == [] then [] else groups[0] + Flat(groups[1..])
  }

  function Fated(msgs: seq<Message>, fate: Fate): seq<Out> {
    seq(|msgs|, i requires 0 <= i < |msgs| => Out(msgs[i], fate))
  }

  function Msgs(left: seq<Out>): seq<Message> {
    seq(|left|, i requires 0 <= i < |left| => left[i].msg)
  }

  function DeliveredOf(left: seq<Out>): seq<Message> {
    if left == [] then []
    else DeliveredOf(left[..|left| - 1]) + (if left[|left| - 1].fate.Delivered? then [left[|left| - 1].msg] else [])
  }

  function PartsOf(ds: seq<Delivery>): seq<Message> {
    if ds == [] then [] else PartsOf(ds[..|ds| - 1]) + ds[|ds| - 1].parts
  }

  function ReportedOf(ds: seq<Delivery>): seq<string> {
    if ds == [] then [] else ReportedOf(ds[..|ds| - 1]) + ds[|ds| - 1].reported
  }

  // ----- the steps -----

  function Acquired(t: Track, slot: Slot, msg: Message): Track {
    t.(slot := slot, holders := t.holders + 1, accepted := t.accepted + [msg], left := t.left + [Out(msg, Delivered)],
       deliveries := t.deliveries + [Delivery(msg, [[msg]], [msg], [], msg.text)])
  }

  function Room(t: Track, opts: Options): Track {
    if !Full(t.slot, opts) || t.waiting == [] then t
    else t.(slot := MakeRoom(t.slot, opts), waiting := t.waiting[1..],
            left := t.left + Fated(t.waiting[0], DroppedAtCap(|t.slot.queue|, CapOf(opts))),
            summaries :=
              if NormalizeQueueDrop(opts.drop).Summarize? then t.summaries + [QueueSummary(t.slot.queue[0].msg.text)]
              else t.summaries)
  }

  function Entered(t: Track, slot: Slot, msg: Message, merges: bool): Track {
    t.(slot := slot, accepted := t.accepted + [msg],
       waiting := if merges && t.waiting != [] then t.waiting[|t.waiting| - 1 := t.waiting[|t.waiting| - 1] + [msg]]
                  else t.waiting + [[msg]])
  }

  function Arrived(t: Track, msg: Message, opts: Options, now: int, debounce: int): Track {
    var (slot, r) := Acquire(t.slot, msg, opts, now, debounce);
    if r.queued then
      var room := Room(t, opts);
      Entered(room, slot, msg, MergesIntoLast(room.slot.queue, msg.text, QueueingMode(opts), now, debounce))
    else if r.acquired && !t.slot.active then Acquired(t, slot, msg)
    else t
  }

  function Finished(t: Track): Track {
    var (slot, next) := ReleaseSlot(t.slot);
    var n := Taken(t.slot.queue);
    if next.None? || n > |t.waiting| then t.(slot := slot, holders := t.holders - 1)
    else
      var parts := Flat(t.waiting[..n]);
      t.(slot := slot, waiting := t.waiting[n..], left := t.left + Fated(parts, Delivered),
         deliveries :=
           t.deliveries + [Delivery(next.value, t.waiting[..n], parts, t.slot.dropped, MergedText(t.slot.queue, n))])
  }

  function Next(t: Track, debounce: int, step: Step): Track {
    match step
    case Arrive(msg, opts, now) => Arrived(t, msg, opts, now, debounce)
    case Interrupted(msg, now) =>
      var (slot, r) := Replace(t.slot, msg, now);
      if r.acquired then Acquired(t, slot, msg)
      else
        t.(slot := slot, accepted := t.accepted + [msg], left := t.left + Fated(Flat(t.waiting), Discarded),
           waiting := [[msg]])
    case Finish => Finished(t)
    case Forced => t.(slot := EMPTY, left := t.left + Fated(Flat(t.waiting), Discarded), waiting := [])
  }

  /** Only a caller that was given the turn finishes it. */
  predicate CanRun(t: Track, debounce: int, steps: seq<Step>)
    decreases |steps|
  {
    steps == [] || ((steps[0].Finish? ==> t.holders > 0) && CanRun(Next(t, debounce, steps[0]), debounce, steps[1..]))
  }

  function Run(t: Track, debounce: int, steps: seq<Step>): Track
    decreases |steps|
  {
    if steps == [] then t else Run(Next(t, debounce, steps[0]), debounce, steps[1..])
  }

  // ----- what a merged text is -----

  /** The texts of the messages that have one, in order. */
  function TextsOf(msgs: seq<Message>): (r: seq<string>)
    ensures forall i :: 0 <= i < |r| ==> r[i] != ""
  {
    if msgs == [] then []
    else
      var last := msgs[|msgs| - 1].text;
      TextsOf(msgs[..|msgs| - 1]) + (if last != "" then [last] else [])
  }

  /** The text of a waiting turn: its messages' texts, one under the other. */
  function GroupText(parts: seq<Message>): string {
    JoinLines(TextsOf(parts))
  }

  /** The lines of a delivery: the oldest turn's text and every other one that is not empty. */
  function GroupLines(groups: seq<seq<Message>>): (r: seq<string>)
    ensures groups != [] ==> r != []
  {
    if groups == [] then []
    else if |groups| == 1 then [GroupText(groups[0])]
    else
      var last := GroupText(groups[|groups| - 1]);
      GroupLines(groups[..|groups| - 1]) + (if last != "" then [last] else [])
  }

  lemma {:induction false} JoinLinesAppend(lines: seq<string>, x: string)
    ensures JoinLines(lines + [x]) == if lines == [] then x else JoinLines(lines) + "\n" + x
  {
    if lines == [] {
      assert [] + [x] == [x];
    } else {
      assert (lines + [x])[1..] == lines[1..] + [x] && (lines + [x])[0] == lines[0];
      JoinLinesAppend(lines[1..], x);
    }
  }

  lemma JoinLinesEmpty(lines: seq<string>)
    requires forall i :: 0 <= i < |lines| ==> lines[i] != ""
    ensures JoinLines(lines) == "" <==> lines == []
  {
    if lines != [] {
      assert lines[0] != "";
    }
  }

  lemma GroupTextOne(msg: Message)
    ensures GroupText([msg]) == msg.text
  {
    assert TextsOf([msg][..0]) == [] && [msg][..0] == [];
  }

  lemma GroupTextGrows(parts: seq<Message>, msg: Message)
    requires msg.text != ""
    ensures GroupText(parts + [msg]) == AppendText(GroupText(parts), msg.text)
  {
    assert (parts + [msg])[..|parts|] == parts;
    JoinLinesAppend(TextsOf(parts), msg.text);
    JoinLinesEmpty(TextsOf(parts));
  }

  lemma {:induction false} FlatConcat(a: seq<seq<Message>>, b: seq<seq<Message>>)
    ensures Flat(a + b) == Flat(a) + Flat(b)
  {
    if a == [] {
      assert a + b == b;
    } else {
      FlatConcat(a[1..], b);
      assert (a + b)[1..] == a[1..] + b && (a + b)[0] == a[0];
      calc {
        Flat(a + b);
        a[0] + Flat(a[1..] + b);
        a[0] + (Flat(a[1..]) + Flat(b));
        (a[0] + Flat(a[1..])) + Flat(b);
      }
    }
  }

  lemma FlatNothing()
    ensures Flat([]) == []
  {
  }

  lemma FlatOne(g: seq<Message>)
    ensures Flat([g]) == g
  {
    assert Flat([g][1..]) == [];
  }

  lemma {:induction false} DeliveredOfConcat(a: seq<Out>, b: seq<Out>)
    ensures DeliveredOf(a + b) == DeliveredOf(a) + DeliveredOf(b)
  {
    if b == [] {
      assert a + b == a;
    } else {
      DeliveredOfConcat(a, b[..|b| - 1]);
      assert (a + b)[..|a + b| - 1] == a + b[..|b| - 1];
    }
  }

  lemma {:induction false} DeliveredOfFated(msgs: seq<Message>, fate: Fate)
    ensures DeliveredOf(Fated(msgs, fate)) == if fate.Delivered? then msgs else []
  {
    if msgs != [] {
      var m := msgs[..|msgs| - 1];
      DeliveredOfFated(m, fate);
      var out := Fated(msgs, fate);
      assert out[..|out| - 1] == Fated(m, fate) && out[|out| - 1] == Out(msgs[|msgs| - 1], fate);
      hide Fated;
      assert m + [msgs[|msgs| - 1]] == msgs;
    }
  }

  // ----- the invariant -----

  /** A waiting turn stands for its messages: it has the first one's other fields and their
      texts. */
  predicate StandsFor(turn: PendingTurn, parts: seq<Message>) {
    parts != [] && turn.msg.other == parts[0].other && turn.msg.text == GroupText(parts)
  }

  predicate Matches(queue: seq<PendingTurn>, waiting: seq<seq<Message>>) {
    |waiting| == |queue| && forall k :: 0 <= k < |queue| ==> StandsFor(queue[k], waiting[k])
  }

  /** A delivery is its note, if it reports drops, and then the texts of its turns; it has the
      first message's other fields. */
  predicate Faithful(d: Delivery) {
    d.parts != [] && d.parts == Flat(d.groups) && d.msg.other == d.parts[0].other &&
    d.msg.text == WithNote(d.reported, d.body) && d.body == JoinLines(GroupLines(d.groups))
  }

  predicate FateGood(fate: Fate) {
    fate.DroppedAtCap? ==> 1 <= fate.cap <= fate.length
  }

  predicate SlotGood(s: Slot) {
    (s.queue != [] ==> s.active) && (s.dropped != [] ==> s.queue != [])
  }

  predicate Ledger(t: Track) {
    t.accepted == Msgs(t.left) + Flat(t.waiting) && DeliveredOf(t.left) == PartsOf(t.deliveries)
  }

  predicate Records(t: Track) {
    (forall d :: d in t.deliveries ==> Faithful(d)) && (forall o :: o in t.left ==> FateGood(o.fate))
  }

  predicate Good(t: Track) {
    SlotGood(t.slot) && Matches(t.slot.queue, t.waiting) && Ledger(t) && Records(t)
  }

  /** Messages leave with one fate and, if they are delivered, in one delivery. */
  lemma LedgerLeaves(t: Track, t': Track, parts: seq<Message>, fate: Fate)
    requires Ledger(t) && Flat(t.waiting) == parts + Flat(t'.waiting)
    requires t'.accepted == t.accepted && t'.left == t.left + Fated(parts, fate)
    requires PartsOf(t'.deliveries) == PartsOf(t.deliveries) + if fate.Delivered? then parts else []
    ensures Ledger(t')
  {
    DeliveredOfConcat(t.left, Fated(parts, fate));
    DeliveredOfFated(parts, fate);
    MsgsFated(t.left, parts, fate);
    hide Flat, DeliveredOf, Msgs, Fated, PartsOf;
    assert Msgs(t.left) + (parts + Flat(t'.waiting)) == (Msgs(t.left) + parts) + Flat(t'.waiting);
  }

  lemma FlatSplit(waiting: seq<seq<Message>>, n: nat)
    requires n <= |waiting|
    ensures Flat(waiting) == Flat(waiting[..n]) + Flat(waiting[n..])
  {
    FlatConcat(waiting[..n], waiting[n..]);
    assert waiting[..n] + waiting[n..] == waiting;
  }

  lemma MsgsFated(left: seq<Out>, parts: seq<Message>, fate: Fate)
    ensures Msgs(left + Fated(parts, fate)) == Msgs(left) + parts
  {
  }

  lemma FlatGrows(waiting: seq<seq<Message>>, msg: Message)
    requires waiting != []
    ensures var n := |waiting| - 1; Flat(waiting[n := waiting[n] + [msg]]) == Flat(waiting) + [msg]
  {
    var n := |waiting| - 1;
    var init, g := waiting[..n], waiting[n];
    FlatConcat(init, [g]);
    FlatConcat(init, [g + [msg]]);
    FlatOne(g);
    FlatOne(g + [msg]);
    hide Flat;
    assert init + [g] == waiting;
    assert waiting[n := g + [msg]] == init + [g + [msg]];
  }

  lemma LedgerEnters(t: Track, slot: Slot, msg: Message, merges: bool)
    requires Ledger(t)
    ensures Ledger(Entered(t, slot, msg, merges))
  {
    if merges && t.waiting != [] {
      FlatGrows(t.waiting, msg);
    } else {
      FlatConcat(t.waiting, [[msg]]);
      FlatOne([msg]);
    }
    hide Flat, Msgs, DeliveredOf, PartsOf;
    assert (Msgs(t.left) + Flat(t.waiting)) + [msg] == Msgs(t.left) + (Flat(t.waiting) + [msg]);
  }

  lemma RecordsFated(t: Track, t': Track, msgs: seq<Message>, fate: Fate)
    requires Records(t) && FateGood(fate) && t'.left == t.left + Fated(msgs, fate)
    requires forall d :: d in t'.deliveries ==> d in t.deliveries || Faithful(d)
    ensures Records(t')
  {
  }

  lemma AcquiredGood(t: Track, msg: Message)
    requires Good(t) && !t.slot.active
    ensures Good(Acquired(t, t.slot.(active := true), msg))
  {
    var t' := Acquired(t, t.slot.(active := true), msg);
    var d := Delivery(msg, [[msg]], [msg], [], msg.text);
    GroupTextOne(msg);
    FlatOne([msg]);
    hide GroupText, Flat;
    assert Faithful(d);
    hide WithNote, Faithful;
    assert t'.deliveries[..|t.deliveries|] == t.deliveries;
    assert t'.left[..|t.left|] == t.left;
    assert t'.waiting == t.waiting == [] && Flat([]) == [] by { FlatNothing(); }
    assert t'.accepted == Msgs(t'.left) + Flat(t'.waiting);
  }

  lemma RoomGood(t: Track, opts: Options)
    requires Good(t) && t.slot.active
    ensures var t' := Room(t, opts); Matches(t'.slot.queue, t'.waiting) && Ledger(t') && Records(t')
    ensures var t' := Room(t, opts); t'.slot == MakeRoom(t.slot, opts)
  {
    hide NormalizeQueueDrop, QueueSummary, StandsFor, Faithful;
    if Full(t.slot, opts) {
      var t' := Room(t, opts);
      assert Flat(t.waiting[..1]) == t.waiting[0] by {
        FlatOne(t.waiting[0]);
        assert t.waiting[..1] == [t.waiting[0]];
      }
      FlatSplit(t.waiting, 1);
      LedgerLeaves(t, t', t.waiting[0], DroppedAtCap(|t.slot.queue|, CapOf(opts)));
      RecordsFated(t, t', t.waiting[0], DroppedAtCap(|t.slot.queue|, CapOf(opts)));
    }
  }

  lemma EnqueueMatches(queue: seq<PendingTurn>, waiting: seq<seq<Message>>, msg: Message, mode: Mode, now: int,
                       debounce: int)
    requires Matches(queue, waiting)
    ensures var merges := MergesIntoLast(queue, msg.text, mode, now, debounce);
      Matches(Enqueue(queue, msg, mode, now, debounce),
              if merges && waiting != [] then waiting[|waiting| - 1 := waiting[|waiting| - 1] + [msg]]
              else waiting + [[msg]])
  {
    hide GroupText, AppendText;
    GroupTextOne(msg);
    if MergesIntoLast(queue, msg.text, mode, now, debounce) {
      var last, g := queue[|queue| - 1], waiting[|waiting| - 1];
      assert StandsFor(last, g);
      GroupTextGrows(g, msg);
    }
  }

  lemma ArrivedGood(t: Track, msg: Message, opts: Options, now: int, debounce: int)
    requires Good(t)
    ensures Good(Arrived(t, msg, opts, now, debounce))
  {
    hide IsSlashBypass, NormalizeQueueDrop, NormalizeQueueMode, QueueSummary, Enqueue, Room, MakeRoom;
    hide Matches, Ledger, Records;
    if !t.slot.active {
      AcquiredGood(t, msg);
    } else if !IsSlashBypass(msg.text) && !Rejects(t.slot, opts) {
      hide Rejects;
      AcquireQueued(t.slot, msg, opts, now, debounce);
      hide Acquire;
      RoomGood(t, opts);
      var room := Room(t, opts);
      var merges := MergesIntoLast(room.slot.queue, msg.text, QueueingMode(opts), now, debounce);
      EnqueueMatches(room.slot.queue, room.waiting, msg, QueueingMode(opts), now, debounce);
      LedgerEnters(room, Acquire(t.slot, msg, opts, now, debounce).0, msg, merges);
      hide MergesIntoLast, QueueingMode;
      EnteredRecords(room, Acquire(t.slot, msg, opts, now, debounce).0, msg, merges);
      EnqueueSome(room.slot.queue, msg, QueueingMode(opts), now, debounce);
    }
  }

  lemma EnteredRecords(t: Track, slot: Slot, msg: Message, merges: bool)
    requires Records(t)
    ensures Records(Entered(t, slot, msg, merges))
  {
  }

  lemma EnqueueSome(queue: seq<PendingTurn>, msg: Message, mode: Mode, now: int, debounce: int)
    ensures |Enqueue(queue, msg, mode, now, debounce)| ==
      |queue| + (if MergesIntoLast(queue, msg.text, mode, now, debounce) then 0 else 1)
    ensures Enqueue(queue, msg, mode, now, debounce) != []
  {
  }

  lemma {:induction false} MergedIsJoined(queue: seq<PendingTurn>, waiting: seq<seq<Message>>, n: nat)
    requires Matches(queue, waiting) && 1 <= n <= |queue|
    ensures MergedText(queue, n) == JoinLines(GroupLines(waiting[..n]))
    decreases n
  {
    hide GroupText, GroupLines, JoinLines;
    var text := GroupText(waiting[n - 1]);
    assert queue[n - 1].msg.text == text by {
      assert StandsFor(queue[n - 1], waiting[n - 1]);
    }
    hide StandsFor, Matches;
    if n == 1 {
      assert waiting[..1] == [waiting[0]];
      GroupLinesOne(waiting[0]);
    } else {
      MergedIsJoined(queue, waiting, n - 1);
      GroupLinesStep(waiting, n);
      JoinLinesAppend(GroupLines(waiting[..n - 1]), text);
    }
  }

  lemma GroupLinesStep(waiting: seq<seq<Message>>, n: nat)
    requires 2 <= n <= |waiting|
    ensures var last := GroupText(waiting[n - 1]);
      GroupLines(waiting[..n]) ==
        if last != "" then GroupLines(waiting[..n - 1]) + [last] else GroupLines(waiting[..n - 1])
    ensures GroupLines(waiting[..n - 1]) != []
  {
    assert waiting[..n][..n - 1] == waiting[..n - 1];
  }

  lemma GroupLinesOne(g: seq<Message>)
    ensures JoinLines(GroupLines([g])) == GroupText(g)
  {
  }

  lemma FirstPart(queue: seq<PendingTurn>, waiting: seq<seq<Message>>, n: nat)
    requires Matches(queue, waiting) && 1 <= n <= |queue|
    ensures Flat(waiting[..n]) != [] && Flat(waiting[..n])[0] == waiting[0][0]
    ensures queue[0].msg.other == waiting[0][0].other
  {
    assert StandsFor(queue[0], waiting[0]);
    FlatSplit(waiting[..n], 1);
    assert waiting[..n][..1] == [waiting[0]];
    FlatOne(waiting[0]);
    hide Flat;
  }

  lemma ReleaseFaithful(s: Slot, waiting: seq<seq<Message>>)
    requires Matches(s.queue, waiting) && s.queue != []
    ensures var n := Taken(s.queue);
      Faithful(Delivery(ReleaseSlot(s).1.value, waiting[..n], Flat(waiting[..n]), s.dropped, MergedText(s.queue, n)))
  {
    hide WithNote, Flat, StandsFor, GroupLines, JoinLines;
    MergedIsJoined(s.queue, waiting, Taken(s.queue));
    FirstPart(s.queue, waiting, Taken(s.queue));
    hide MergedText;
  }

  lemma MatchesRest(queue: seq<PendingTurn>, waiting: seq<seq<Message>>, n: nat)
    requires Matches(queue, waiting) && n <= |queue|
    ensures Matches(queue[n..], waiting[n..])
  {
    hide StandsFor;
  }

  /** A delivery of the first n waiting turns, once it is known to be faithful. */
  lemma DeliveredGood(t: Track, t': Track, n: nat, d: Delivery)
    requires Ledger(t) && Records(t) && n <= |t.waiting| && Faithful(d) && d.parts == Flat(t.waiting[..n])
    requires t'.accepted == t.accepted && t'.waiting == t.waiting[n..]
    requires t'.left == t.left + Fated(d.parts, Delivered) && t'.deliveries == t.deliveries + [d]
    ensures Ledger(t') && Records(t')
  {
    hide Faithful;
    assert t'.deliveries[..|t.deliveries|] == t.deliveries;
    FlatSplit(t.waiting, n);
    LedgerLeaves(t, t', d.parts, Delivered);
    RecordsFated(t, t', d.parts, Delivered);
  }

  lemma FinishedGood(t: Track)
    requires Good(t)
    ensures Good(Finished(t))
  {
    hide WithNote, FateGood, StandsFor, MergedText, Flat, Fated, Faithful, Ledger, Records;
    if t.slot.queue != [] {
      var n := Taken(t.slot.queue);
      var t' := Finished(t);
      ReleaseFaithful(t.slot, t.waiting);
      MatchesRest(t.slot.queue, t.waiting, n);
      hide Matches;
      DeliveredGood(t, t', n, t'.deliveries[|t.deliveries|]);
    } else {
      FinishedIdle(t);
    }
  }

  lemma FinishedIdle(t: Track)
    requires Good(t) && t.slot.queue == []
    ensures Good(Finished(t))
  {
    hide Faithful;
  }

  lemma DiscardGood(t: Track, t': Track)
    requires Good(t) && t'.accepted == t.accepted && t'.waiting == []
    requires t'.left == t.left + Fated(Flat(t.waiting), Discarded) && t'.deliveries == t.deliveries
    ensures Ledger(t') && Records(t')
  {
    hide Faithful;
    LedgerLeaves(t, t', Flat(t.waiting), Discarded);
    RecordsFated(t, t', Flat(t.waiting), Discarded);
  }

  lemma NextGood(t: Track, debounce: int, step: Step)
    requires Good(t)
    ensures Good(Next(t, debounce, step))
  {
    hide Ledger, Records, Faithful, GroupText;
    match step
    case Arrive(msg, opts, now) =>
      hide Good;
      ArrivedGood(t, msg, opts, now, debounce);
    case Finish =>
      hide Good;
      FinishedGood(t);
    case Interrupted(msg, now) =>
      if !t.slot.active {
        AcquiredGood(t, msg);
      } else {
        var slot := Replace(t.slot, msg, now).0;
        var emptied := t.(slot := slot, left := t.left + Fated(Flat(t.waiting), Discarded), waiting := []);
        DiscardGood(t, emptied);
        LedgerEnters(emptied, slot, msg, false);
        EnteredRecords(emptied, slot, msg, false);
        GroupTextOne(msg);
        assert Entered(emptied, slot, msg, false) == Next(t, debounce, step);
      }
    case Forced => DiscardGood(t, Next(t, debounce, step));
  }

  lemma {:induction false} RunGood(t: Track, debounce: int, steps: seq<Step>)
    requires Good(t)
    ensures Good(Run(t, debounce, steps))
    decreases |steps|
  {
    hide Good, Next;
    if steps != [] {
      NextGood(t, debounce, steps[0]);
      RunGood(Next(t, debounce, steps[0]), debounce, steps[1..]);
    }
  }

  // ----- main results -----

  /** Over every run, each accepted message has left exactly once or still waits, in arrival
      order; what was delivered is exactly the messages that left as delivered, in that order
      and with their texts one under the other; and drops happen only at the cap. */
  lemma NothingLostOrReordered(debounce: int, steps: seq<Step>)
    ensures var t := Run(START, debounce, steps);
      t.accepted == Msgs(t.left) + Flat(t.waiting) &&
      PartsOf(t.deliveries) == DeliveredOf(t.left) &&
      (forall o :: o in t.left ==> FateGood(o.fate)) &&
      (forall d :: d in t.deliveries ==> Faithful(d))
    ensures var t := Run(START, debounce, steps); Matches(t.slot.queue, t.waiting) && SlotGood(t.slot)
  {
    assert Good(START);
    RunGood(START, debounce, steps);
  }

  predicate Calm(step: Step) {
    step.Arrive? || step.Finish?
  }

  /** Every summarised drop is in the slot's list or was reported by a delivery, in order. */
  predicate Reports(t: Track) {
    ReportedOf(t.deliveries) + t.slot.dropped == t.summaries && SlotGood(t.slot) && |t.waiting| == |t.slot.queue| &&
    forall o :: o in t.left ==> !o.fate.Discarded?
  }

  lemma ArrivedReports(t: Track, msg: Message, opts: Options, now: int, debounce: int)
    requires Reports(t) && t.slot.active
    ensures var t' := Arrived(t, msg, opts, now, debounce);
      ReportedOf(t'.deliveries) + t'.slot.dropped == t'.summaries && t'.holders == t.holders &&
      (forall o :: o in t'.left ==> !o.fate.Discarded?)
  {
    hide IsSlashBypass, NormalizeQueueDrop, NormalizeQueueMode, QueueSummary, MergesIntoLast, Enqueue;
    if !IsSlashBypass(msg.text) && !Rejects(t.slot, opts) {
      AcquireQueued(t.slot, msg, opts, now, debounce);
      hide Acquire, Rejects;
      var room := Room(t, opts);
      assert room.slot == MakeRoom(t.slot, opts);
      assert ReportedOf(room.deliveries) + room.slot.dropped == room.summaries;
      assert forall o :: o in room.left ==> !o.fate.Discarded?;
      hide Room, MakeRoom;
    }
  }

  lemma DeliveryReports(t: Track, d: Delivery)
    ensures ReportedOf(t.deliveries + [d]) == ReportedOf(t.deliveries) + d.reported
  {
    assert (t.deliveries + [d])[..|t.deliveries|] == t.deliveries;
  }

  lemma FinishedReports(t: Track)
    requires Reports(t)
    ensures var t' := Finished(t);
      ReportedOf(t'.deliveries) + t'.slot.dropped == t'.summaries && (forall o :: o in t'.left ==> !o.fate.Discarded?)
  {
    hide MergedText, WithNote, Flat;
    if t.slot.queue != [] {
      var d := Finished(t).deliveries[|t.deliveries|];
      DeliveryReports(t, d);
    }
  }

  lemma NextReports(t: Track, debounce: int, step: Step)
    requires Reports(t) && Good(t) && Calm(step)
    ensures Reports(Next(t, debounce, step))
  {
    NextGood(t, debounce, step);
    hide Ledger, Records;
    if step.Finish? {
      FinishedReports(t);
      hide Finished;
    } else if t.slot.active {
      ArrivedReports(t, step.msg, step.opts, step.now, debounce);
      hide Arrived;
    } else {
      hide QueueingMode, Matches;
      DeliveryReports(t, Delivery(step.msg, [[step.msg]], [step.msg], [], step.msg.text));
      assert |t.waiting| == 0;
    }
  }

  lemma {:induction false} RunReports(t: Track, debounce: int, steps: seq<Step>)
    requires Reports(t) && Good(t) && forall i :: 0 <= i < |steps| ==> Calm(steps[i])
    ensures Reports(Run(t, debounce, steps))
    decreases |steps|
  {
    hide Good, Next, Reports;
    if steps != [] {
      NextGood(t, debounce, steps[0]);
      NextReports(t, debounce, steps[0]);
      RunReports(Next(t, debounce, steps[0]), debounce, steps[1..]);
    }
  }

  /** Without interrupts and forced releases nothing is discarded, and every drop made under
      "summarize" is reported by the next delivery or still waits to be. */
  lemma EveryDropReported(debounce: int, steps: seq<Step>)
    requires forall i :: 0 <= i < |steps| ==> Calm(steps[i])
    ensures Reports(Run(START, debounce, steps))
  {
    RunReports(START, debounce, steps);
  }

  /** The drops of a slot are reported as a whole by the very next release. */
  lemma NextReleaseReports(t: Track)
    requires Good(t) && t.slot.dropped != []
    ensures var t' := Finished(t);
      |t'.deliveries| == |t.deliveries| + 1 && t'.deliveries[|t.deliveries|].reported == t.slot.dropped &&
      QueueNote(t.slot.dropped) <= t'.deliveries[|t.deliveries|].msg.text && t'.slot.dropped == []
  {
    hide QueueNote, MergedText, Flat;
  }

  /** The number a note gives. */
  function NoteCount(text: string): nat
    requires |NOTE_HEAD| <= |text|
  {
    var rest := text[|NOTE_HEAD|..];
    DigitsValue(rest[..LeadingDigits(rest)])
  }

  lemma {:induction false} LeadingDigitsStop(digits: string, rest: string)
    requires (forall i :: 0 <= i < |digits| ==> IsDigit(digits[i])) && rest != "" && !IsDigit(rest[0])
    ensures LeadingDigits(digits + rest) == |digits|
  {
    if digits == "" {
      assert digits + rest == rest;
    } else {
      LeadingDigitsStop(digits[1..], rest);
      assert (digits + rest)[1..] == digits[1..] + rest;
    }
  }

  /** A note in front of any text starts with the exact number of drops. */
  lemma NoteCountsDrops(dropped: seq<string>, text: string)
    requires dropped != []
    ensures |NOTE_HEAD| <= |WithNote(dropped, text)| && NoteCount(WithNote(dropped, text)) == |dropped|
  {
    var digits := Decimal(|dropped|);
    var rest := NoteRest(dropped, text);
    assert |NOTE_HEAD + (digits + rest)| == |NOTE_HEAD| + |digits + rest|;
    hide WithNote, NOTE_HEAD;
    LeadingDigitsStop(digits, rest);
    assert (NOTE_HEAD + (digits + rest))[|NOTE_HEAD|..] == digits + rest;
    assert (digits + rest)[..|digits|] == digits;
    DecimalRoundTrip(|dropped|);
  }

  lemma NoteRest(dropped: seq<string>, text: string) returns (rest: string)
    requires dropped != []
    ensures rest != "" && rest[0] == ' ' && WithNote(dropped, text) == NOTE_HEAD + (Decimal(|dropped|) + rest)
  {
    var wording := NoteWording();
    assert wording[0] == ' ';
    hide NoteWording;
    var limit := if |dropped| > NOTE_LIMIT then NOTE_LIMIT else |dropped|;
    var more := (if |dropped| > limit then "\n- ... and " + Decimal(|dropped| - limit) + " more" else "");
    var end := "]\n\n";
    rest := Regroup(NOTE_HEAD, Decimal(|dropped|), wording, Bullets(dropped, limit), more, end, text);
  }

  lemma Regroup(a: string, b: string, c: string, d: string, e: string, f: string, g: string) returns (rest: string)
    requires c != ""
    ensures a + b + c + d + e + f + g == a + (b + rest) && rest != "" && rest[0] == c[0]
  {
    rest := c + (d + e + f + g);
    assert a + b + c + d + e + f + g == a + b + (c + d + e + f + g);
    assert c + d + e + f + g == rest;
  }

  /** Each of the first three drops is in the note with its summary. */
  lemma {:induction false} BulletsHold(dropped: seq<string>, k: nat, i: nat) returns (before: string, after: string)
    requires i < k <= |dropped|
    ensures Bullets(dropped, k) == before + "\n- " + dropped[i] + after
    decreases k
  {
    if i == k - 1 {
      before, after := Bullets(dropped, i), "";
    } else {
      var rest;
      before, rest := BulletsHold(dropped, k - 1, i);
      after := rest + "\n- " + dropped[k - 1];
    }
  }

  // ----- one turn at a time -----

  predicate Exclusive(t: Track) {
    t.holders == (if t.slot.active then 1 else 0) && SlotGood(t.slot)
  }

  lemma NextExclusive(t: Track, debounce: int, step: Step)
    requires Exclusive(t) && Good(t) && !step.Forced? && (step.Finish? ==> t.holders > 0)
    ensures Exclusive(Next(t, debounce, step))
  {
    NextGood(t, debounce, step);
    hide Ledger, Records, IsSlashBypass, MergesIntoLast, Enqueue, MergedText, WithNote, Flat, Fated;
    if step.Arrive? && t.slot.active {
      ArrivedHolders(t, step.msg, step.opts, step.now, debounce);
      hide Arrived;
    }
  }

  lemma ArrivedHolders(t: Track, msg: Message, opts: Options, now: int, debounce: int)
    requires t.slot.active
    ensures var t' := Arrived(t, msg, opts, now, debounce); t'.holders == t.holders && t'.slot.active
  {
    hide IsSlashBypass, Rejects, MergesIntoLast, Enqueue, QueueSummary, NormalizeQueueDrop, NormalizeQueueMode;
  }

  lemma {:induction false} RunExclusive(t: Track, debounce: int, steps: seq<Step>)
    requires Exclusive(t) && Good(t) && CanRun(t, debounce, steps)
    requires forall i :: 0 <= i < |steps| ==> !steps[i].Forced?
    ensures Exclusive(Run(t, debounce, steps))
    decreases |steps|
  {
    hide Next, Exclusive;
    if steps != [] {
      NextGood(t, debounce, steps[0]);
      NextExclusive(t, debounce, steps[0]);
      hide Good;
      RunExclusive(Next(t, debounce, steps[0]), debounce, steps[1..]);
    }
  }

  /** Without forced releases exactly one caller holds the turn while the key is active, and
      none otherwise. */
  lemma OneTurnAtATime(debounce: int, steps: seq<Step>)
    requires CanRun(START, debounce, steps) && forall i :: 0 <= i < |steps| ==> !steps[i].Forced?
    ensures Exclusive(Run(START, debounce, steps))
  {
    RunExclusive(START, debounce, steps);
  }

  /** A forced release keeps exclusion if and only if nobody holds the turn, which IsActive
      tells before the call. */
  lemma ForceReleaseExactly(t: Track, debounce: int)
    requires Exclusive(t)
    ensures Exclusive(Next(t, debounce, Forced)) <==> !t.slot.active
  {
    hide Flat, Fated;
  }

  /** Exclusion holds at the start and after every step. */
  predicate AlwaysExclusive(t: Track, debounce: int, steps: seq<Step>)
    decreases |steps|
  {
    Exclusive(t) && (steps == [] || AlwaysExclusive(Next(t, debounce, steps[0]), debounce, steps[1..]))
  }

  /** Every forced release of the run comes while the key is not active. */
  predicate ForcedWhenIdle(t: Track, debounce: int, steps: seq<Step>)
    decreases |steps|
  {
    steps == [] ||
    ((steps[0].Forced? ==> !t.slot.active) && ForcedWhenIdle(Next(t, debounce, steps[0]), debounce, steps[1..]))
  }

  /** Over any run with forced releases: one turn at a time throughout if and only if every
      forced release comes while the key is not active. */
  lemma {:induction false} OneTurnExactly(t: Track, debounce: int, steps: seq<Step>)
    requires Exclusive(t) && Good(t) && CanRun(t, debounce, steps)
    ensures AlwaysExclusive(t, debounce, steps) <==> ForcedWhenIdle(t, debounce, steps)
    decreases |steps|
  {
    hide Next, Good;
    if steps != [] {
      var next := Next(t, debounce, steps[0]);
      NextGood(t, debounce, steps[0]);
      if steps[0].Forced? {
        ForceReleaseExactly(t, debounce);
      } else {
        NextExclusive(t, debounce, steps[0]);
      }
      hide Exclusive;
      if Exclusive(next) {
        OneTurnExactly(next, debounce, steps[1..]);
      } else {
        NeverExclusive(next, debounce, steps[1..]);
      }
    }
  }

  lemma NeverExclusive(t: Track, debounce: int, steps: seq<Step>)
    requires !Exclusive(t)
    ensures !AlwaysExclusive(t, debounce, steps)
  {
  }

  /** One of the failing runs: a second turn starts while the first still unwinds. */
  lemma ForceReleaseBreaksExclusion(debounce: int, a: Message, b: Message, opts: Options)
    ensures var steps := [Arrive(a, opts, 0), Forced, Arrive(b, opts, 0)];
      CanRun(START, debounce, steps) && Run(START, debounce, steps).holders == 2
  {
    hide IsSlashBypass, Rejects;
    var t1 := Next(START, debounce, Arrive(a, opts, 0));
    var t2 := Next(t1, debounce, Forced);
    var t3 := Next(t2, debounce, Arrive(b, opts, 0));
    var steps := [Arrive(a, opts, 0), Forced, Arrive(b, opts, 0)];
    assert t3.holders == 2;
    hide Next;
    assert CanRun(t3, debounce, []) && Run(t3, debounce, []) == t3;
    var last := [Arrive(b, opts, 0)];
    assert last[1..] == [];
    assert CanRun(t2, debounce, last) && Run(t2, debounce, last) == t3;
    var tail := [Forced, Arrive(b, opts, 0)];
    assert tail[1..] == last;
    assert CanRun(t1, debounce, tail) && Run(t1, debounce, tail) == t3;
    assert steps[1..] == tail;
  }

  // ----- the bound -----

  predicate Within(step: Step, cap: nat) {
    step.Arrive? ==> CapOf(step.opts) <= cap
  }

  lemma {:induction false} QueueBounded(t: Track, debounce: int, steps: seq<Step>, cap: nat)
    requires Good(t) && |t.slot.queue| <= cap && 1 <= cap && forall i :: 0 <= i < |steps| ==> Within(steps[i], cap)
    ensures |Run(t, debounce, steps).slot.queue| <= cap
    decreases |steps|
  {
    if steps != [] {
      NextGood(t, debounce, steps[0]);
      NextBounded(t, debounce, steps[0], cap);
      hide Good, Next;
      QueueBounded(Next(t, debounce, steps[0]), debounce, steps[1..], cap);
    }
  }

  lemma NextBounded(t: Track, debounce: int, step: Step, cap: nat)
    requires |t.slot.queue| <= cap && 1 <= cap && Within(step, cap)
    ensures |Next(t, debounce, step).slot.queue| <= cap
  {
    hide IsSlashBypass, NormalizeQueueDrop, NormalizeQueueMode, QueueSummary, MergedText, WithNote, Flat, Fated;
  }
}
