/** The chat bot's session manager (internal/bot/session.go): one running turn per session key
    and a bounded queue of waiting ones. In this module a char is one rune. */
module BotQueue {
  import opened Text

  const DEFAULT_QUEUE_CAP := 20
  const SUMMARY_RUNES := 180
  const NOTE_LIMIT := 3

  /** An inbound message; other stands for every field besides the text. */
  datatype Message = Message(other: int, text: string)

  datatype Mode = Steer | Followup | Collect | Interrupt

  datatype Drop = Summarize | DropOld | DropNew

  datatype Options = Options(mode: string, cap: int, drop: string)

  datatype PendingTurn = PendingTurn(msg: Message, timestamp: int, mode: Mode)

  datatype QueueResult = QueueResult(acquired: bool, queued: bool, rejected: bool, dropped: bool, pending: nat,
                                     mode: Mode)

  /** What the manager holds for one key. */
  datatype Slot = Slot(active: bool, queue: seq<PendingTurn>, dropped: seq<string>)

  const EMPTY := Slot(false, [], [])

  function NormalizeQueueMode(mode: string): Mode {
    var m := ToLower(TrimSpace(mode));
    if m == "followup" then Followup
    else if m == "collect" then Collect
    else if m == "interrupt" then Interrupt
    else Steer
  }

  function NormalizeQueueDrop(drop: string): Drop {
    var d := ToLower(TrimSpace(drop));
    if d == "old" then DropOld else if d == "new" then DropNew else Summarize
  }

  /** Steering and interrupting happen outside; what reaches the queue waits its turn. */
  function QueueingMode(opts: Options): Mode {
    var m := NormalizeQueueMode(opts.mode);
    if m.Collect? then Collect else Followup
  }

  function CapOf(opts: Options): (cap: nat)
    ensures cap >= 1
  {
    if opts.cap <= 0 then DEFAULT_QUEUE_CAP else opts.cap
  }

  predicate IsSlashCommand(cmd: string) {
    cmd in {"/stop", "/new", "/reset", "/approve", "/deny", "/answer", "/yolo", "/mode",
            "/queue", "/projects", "/use", "/sessions", "/attach", "/search", "/status", "/help"}
  }

  /** A slash command, alone or followed by a blank, does not wait. */
  predicate IsSlashBypass(text: string) {
    text != "" && IsSlashCommand(if Index(text, " ") == -1 then text else text[..Index(text, " ")])
  }

  function QueueSummary(text: string): string {
    var t := TrimSpace(text);
    if t == "" then "(empty message)" else if |t| <= SUMMARY_RUNES then t else t[..SUMMARY_RUNES] + "..."
  }

  // ----- entering the queue -----

  predicate Full(s: Slot, opts: Options) {
    |s.queue| >= CapOf(opts)
  }

  predicate Rejects(s: Slot, opts: Options) {
    Full(s, opts) && NormalizeQueueDrop(opts.drop).DropNew?
  }

  /** The slot after room was made: the oldest waiting turn goes. */
  function MakeRoom(s: Slot, opts: Options): Slot {
    if !Full(s, opts) then s
    else s.(queue := s.queue[1..],
            dropped :=
              if NormalizeQueueDrop(opts.drop).Summarize? then s.dropped + [QueueSummary(s.queue[0].msg.text)]
              else s.dropped)
  }

  predicate MergesIntoLast(queue: seq<PendingTurn>, text: string, mode: Mode, now: int, debounce: int) {
    mode.Collect? && queue != [] && text != "" && now - queue[|queue| - 1].timestamp < debounce
  }

  function AppendText(before: string, text: string): string {
    if before != "" then before + "\n" + text else text
  }

  function Enqueue(queue: seq<PendingTurn>, msg: Message, mode: Mode, now: int, debounce: int): seq<PendingTurn> {
    if MergesIntoLast(queue, msg.text, mode, now, debounce) then
      var last := queue[|queue| - 1];
      queue[|queue| - 1 := PendingTurn(last.msg.(text := AppendText(last.msg.text, msg.text)), now, mode)]
    else queue + [PendingTurn(msg, now, mode)]
  }

  function Acquire(s: Slot, msg: Message, opts: Options, now: int, debounce: int): (Slot, QueueResult) {
    var mode := QueueingMode(opts);
    if !s.active then (s.(active := true), QueueResult(true, false, false, false, 0, mode))
    else if IsSlashBypass(msg.text) then (s, QueueResult(true, false, false, false, 0, mode))
    else if Rejects(s, opts) then (s, QueueResult(false, false, true, false, |s.queue|, mode))
    else
      var room := MakeRoom(s, opts);
      var s' := room.(queue := Enqueue(room.queue, msg, mode, now, debounce));
      (s', QueueResult(false, true, false, s'.dropped != [], |s'.queue|, mode))
  }

  lemma AcquireQueued(s: Slot, msg: Message, opts: Options, now: int, debounce: int)
    requires s.active && !IsSlashBypass(msg.text) && !Rejects(s, opts)
    ensures var room := MakeRoom(s, opts);
      var queue := Enqueue(room.queue, msg, QueueingMode(opts), now, debounce);
      Acquire(s, msg, opts, now, debounce) ==
      (Slot(true, queue, room.dropped),
       QueueResult(false, true, false, room.dropped != [], |queue|, QueueingMode(opts)))
  {
    hide IsSlashBypass, Rejects, Enqueue, QueueingMode, Full, QueueSummary, NormalizeQueueDrop;
  }

  function Replace(s: Slot, msg: Message, now: int): (Slot, QueueResult) {
    if !s.active then (s.(active := true), QueueResult(true, false, false, false, 0, Interrupt))
    else
      (s.(queue := [PendingTurn(msg, now, Followup)], dropped := []),
       QueueResult(false, true, false, false, 1, Interrupt))
  }

  // ----- leaving the queue -----

  /** The first k summaries, one line each. */
  function Bullets(dropped: seq<string>, k: nat): string
    requires k <= |dropped|
  {
    if k == 0 then "" else Bullets(dropped, k - 1) + "\n- " + dropped[k - 1]
  }

  const NOTE_HEAD := "[Queue note: "

  function NoteWording(): string {
    " older pending" + " message(s) were" + " dropped because" + " this bot session" + " reached its" +
    " queue cap." + " Dropped summaries:"
  }

  function QueueNote(dropped: seq<string>): string {
    var limit := if |dropped| > NOTE_LIMIT then NOTE_LIMIT else |dropped|;
    NOTE_HEAD + Decimal(|dropped|) + NoteWording() + Bullets(dropped, limit) +
    (if |dropped| > limit then "\n- ... and " + Decimal(|dropped| - limit) + " more" else "") + "]\n\n"
  }

  function WithNote(dropped: seq<string>, text: string): string {
    if dropped == [] then text else QueueNote(dropped) + text
  }

  /** The texts of the first k waiting turns merged for one collect delivery. */
  function MergedText(queue: seq<PendingTurn>, k: nat): string
    requires 1 <= k <= |queue|
  {
    if k == 1 then queue[0].msg.text
    else if queue[k - 1].msg.text != "" then MergedText(queue, k - 1) + "\n" + queue[k - 1].msg.text
    else MergedText(queue, k - 1)
  }

  /** How many waiting turns one release takes: all of them when the oldest collects. */
  function Taken(queue: seq<PendingTurn>): nat {
    if queue == [] then 0 else if queue[0].mode.Followup? then 1 else |queue|
  }

  function ReleaseSlot(s: Slot): (Slot, Option<Message>) {
    if s.queue == [] then (EMPTY, None)
    else
      var n := Taken(s.queue);
      (s.(queue := s.queue[n..], dropped := []),
       Some(Message(s.queue[0].msg.other, WithNote(s.dropped, MergedText(s.queue, n)))))
  }

  // ----- the manager -----

  class SessionManager {
    var active: map<string, bool>
    var pending: map<string, seq<PendingTurn>>
    var dropped: map<string, seq<string>>
    const debounce: int

    constructor (debounce: int)
      ensures this.debounce == (if debounce <= 0 then 1500 else debounce)
      ensures forall key :: SlotAt(key) == EMPTY
    {
      this.debounce := if debounce <= 0 then 1500 else debounce;
      active, pending, dropped := map[], map[], map[];
    }

    function SlotAt(key: string): Slot
      reads this
    {
      Slot(key in active && active[key], if key in pending then pending[key] else [],
           if key in dropped then dropped[key] else [])
    }

    method TryAcquireWithQueue(key: string, msg: Message, opts: Options, now: int) returns (r: QueueResult)
      modifies this
      ensures (SlotAt(key), r) == Acquire(old(SlotAt(key)), msg, opts, now, debounce)
      ensures forall k :: k != key ==> SlotAt(k) == old(SlotAt(k))
    {
      hide NormalizeQueueMode, NormalizeQueueDrop, IsSlashBypass, MakeRoom, Enqueue;
      var mode := NormalizeQueueMode(opts.mode);
      if mode.Steer? || mode.Interrupt? {
        mode := Followup;
      }
      if key in active && active[key] {
        if IsSlashBypass(msg.text) {
          return QueueResult(true, false, false, false, 0, mode);
        }
        var queue := if key in pending then pending[key] else [];
        if |queue| >= CapOf(opts) {
          if NormalizeQueueDrop(opts.drop).DropNew? {
            return QueueResult(false, false, true, false, |queue|, mode);
          }
        }
        AcquireQueued(SlotAt(key), msg, opts, now, debounce);
        hide Acquire;
        DropOldest(key, opts);
        EnqueueTurn(key, msg, mode, now);
        r := QueueResult(false, true, false, SlotAt(key).dropped != [], |pending[key]|, mode);
      } else {
        active := active[key := true];
        r := QueueResult(true, false, false, false, 0, mode);
      }
    }

    method DropOldest(key: string, opts: Options)
      modifies this`pending, this`dropped
      ensures SlotAt(key) == MakeRoom(old(SlotAt(key)), opts)
      ensures forall k :: k != key ==> SlotAt(k) == old(SlotAt(k))
    {
      hide QueueSummary, NormalizeQueueDrop;
      var queue := if key in pending then pending[key] else [];
      if |queue| >= CapOf(opts) {
        var removed := queue[0];
        pending := pending[key := queue[1..]];
        if NormalizeQueueDrop(opts.drop).Summarize? {
          dropped := dropped[key := (if key in dropped then dropped[key] else []) + [QueueSummary(removed.msg.text)]];
        }
      }
    }

    method EnqueueTurn(key: string, msg: Message, mode: Mode, now: int)
      modifies this`pending
      ensures key in pending &&
        SlotAt(key) == old(SlotAt(key)).(queue := Enqueue(old(SlotAt(key)).queue, msg, mode, now, debounce))
      ensures forall k :: k != key ==> SlotAt(k) == old(SlotAt(k))
    {
      var queue := if key in pending then pending[key] else [];
      if mode.Collect? && |queue| > 0 {
        var last := queue[|queue| - 1];
        if msg.text != "" && now - last.timestamp < debounce {
          var text := if last.msg.text != "" then last.msg.text + "\n" + msg.text else msg.text;
          pending := pending[key := queue[|queue| - 1 := PendingTurn(last.msg.(text := text), now, mode)]];
          return;
        }
      }
      pending := pending[key := queue + [PendingTurn(msg, now, mode)]];
    }

    method ReplacePending(key: string, msg: Message, now: int) returns (r: QueueResult)
      modifies this
      ensures (SlotAt(key), r) == Replace(old(SlotAt(key)), msg, now)
      ensures forall k :: k != key ==> SlotAt(k) == old(SlotAt(k))
    {
      if !(key in active && active[key]) {
        active := active[key := true];
        return QueueResult(true, false, false, false, 0, Interrupt);
      }
      pending := pending[key := [PendingTurn(msg, now, Followup)]];
      dropped := dropped - {key};
      r := QueueResult(false, true, false, false, 1, Interrupt);
    }

    method Release(key: string) returns (next: Option<Message>)
      modifies this
      ensures (SlotAt(key), next) == ReleaseSlot(old(SlotAt(key)))
      ensures forall k :: k != key ==> SlotAt(k) == old(SlotAt(k))
    {
      hide WithNote;
      var queue := if key in pending then pending[key] else [];
      if |queue| == 0 {
        active, pending, dropped := active - {key}, pending - {key}, dropped - {key};
        return None;
      }
      var text := queue[0].msg.text;
      if queue[0].mode.Followup? {
        pending := if |queue| == 1 then pending - {key} else pending[key := queue[1..]];
        assert MergedText(queue, 1) == text;
      } else {
        for i := 1 to |queue|
          invariant text == MergedText(queue, i)
        {
          if queue[i].msg.text != "" {
            text := text + "\n" + queue[i].msg.text;
          }
        }
        pending := pending - {key};
      }
      assert text == MergedText(queue, Taken(queue));
      assert SlotAt(key).queue == queue[Taken(queue)..];
      text := ConsumeDroppedPrefix(key, text);
      next := Some(queue[0].msg.(text := text));
    }

    method ConsumeDroppedPrefix(key: string, text: string) returns (r: string)
      modifies this`dropped
      ensures r == WithNote(old(SlotAt(key)).dropped, text)
      ensures dropped == old(dropped) - {key} || (old(SlotAt(key)).dropped == [] && dropped == old(dropped))
    {
      hide NoteWording;
      var d := if key in dropped then dropped[key] else [];
      if |d| == 0 {
        return text;
      }
      dropped := dropped - {key};
      var limit := |d|;
      if limit > NOTE_LIMIT {
        limit := NOTE_LIMIT;
      }
      r := NOTE_HEAD + Decimal(|d|) + NoteWording();
      var bullets := "";
      for i := 0 to limit
        invariant bullets == Bullets(d, i)
      {
        bullets := bullets + "\n- " + d[i];
      }
      r := r + bullets + (if |d| > limit then "\n- ... and " + Decimal(|d| - limit) + " more" else "") + "]\n\n" + text;
    }

    method ForceRelease(key: string)
      modifies this
      ensures SlotAt(key) == EMPTY
      ensures forall k :: k != key ==> SlotAt(k) == old(SlotAt(k))
    {
      active, pending, dropped := active - {key}, pending - {key}, dropped - {key};
    }
  }
}
