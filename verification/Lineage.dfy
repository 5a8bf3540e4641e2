/** Walking a session's ancestors and a sub-agent's fork history on disk
    (internal/agent/subagent_store.go: sessionAncestors, isAncestorSession, derivesFrom).
    The parent links may form cycles. */
module Lineage {
  import opened Text

  /** A file that exists: unreadable, not decodable, or decoded. */
  datatype FileState<T> = Unreadable | Undecodable | Readable(value: T)

  datatype BranchRecord = BranchRecord(id: string, parentId: string)

  datatype Identity = Identity(kind: string, name: string, workspaceRoot: string, promptHash: string,
                               toolScope: seq<string>, schemaHash: string, model: string, effort: string)

  datatype Status = Running | Completed | Failed | Interrupted | OtherStatus

  datatype SubagentMeta = SubagentMeta(ref: string, status: Status, parentSession: string, parentToolCallId: string,
                                       forkedFrom: string, identity: Identity)

  /** The session directory: branch sidecars by session; whether the sub-agent directory can be
      listed (a missing one can, and is empty), its names in listing order with their sidecars
      and readable transcripts. */
  datatype Disk = Disk(branches: map<string, FileState<BranchRecord>>, listable: bool, names: seq<string>,
                       metas: map<string, FileState<SubagentMeta>>, transcripts: set<string>)

  datatype WalkError = Cycle(at: string) | LoadFailed(at: string) | MissingMeta(at: string) | WrongId(at: string)

  predicate ValidRef(ref: string) {
    "sa_" <= ref && forall i :: 0 <= i < |ref| ==>
      'a' <= ref[i] <= 'z' || 'A' <= ref[i] <= 'Z' || '0' <= ref[i] <= '9' || ref[i] == '_' || ref[i] == '-'
  }

  lemma ValidRefTrimmed(ref: string)
    requires ValidRef(ref)
    ensures TrimSpace(ref) == ref
  {
    assert !IsSpace(ref[0]) && !IsSpace(ref[|ref| - 1]);
    TrimSpaceFixes(ref);
  }

  /** BranchID of a session's file: what follows the last separator of its name. */
  function BranchId(session: string): (r: string)
    ensures |r| <= |session|
  {
    if session == "" || session[|session| - 1] == '/' then ""
    else BranchId(session[..|session| - 1]) + [session[|session| - 1]]
  }

  /** LoadBranchMeta fills an empty id from the path. */
  function LoadedId(m: BranchRecord, session: string): string {
    if m.id == "" then BranchId(session) else m.id
  }

  lemma {:induction false} BranchIdIs(session: string)
    ensures BranchId(session) == session <==> '/' !in session
    ensures '/' in session ==> |BranchId(session)| < |session|
  {
    if session != "" {
      var init, last := session[..|session| - 1], session[|session| - 1];
      assert session == init + [last];
      BranchIdIs(init);
    }
  }

  /** A record stored without an id is accepted exactly for a session whose name is not a path. */
  lemma EmptyIdAccepted(d: Disk, session: string)
    requires session in d.branches && d.branches[session].Readable? && d.branches[session].value.id == ""
    requires TrimSpace(session) == session
    ensures BranchOf(d, session).Ok? <==> '/' !in session
  {
    BranchIdIs(session);
    var _, _ := TrimSpaceSplits(BranchId(session));
    hide TrimSpace;
  }

  /** The checked branch record of a session. */
  function BranchOf(d: Disk, cursor: string): Result<BranchRecord, WalkError> {
    if cursor !in d.branches then Err(MissingMeta(cursor))
    else match d.branches[cursor]
      case Readable(m) => if TrimSpace(LoadedId(m, cursor)) != cursor then Err(WrongId(cursor)) else Ok(m)
      case _ => Err(LoadFailed(cursor))
  }

  function ParentOf(d: Disk, cursor: string): string {
    if BranchOf(d, cursor).Ok? then TrimSpace(BranchOf(d, cursor).value.parentId) else ""
  }

  // ----- ancestors -----

  function AncestorsFrom(d: Disk, cursor: string, seen: set<string>): Result<seq<string>, WalkError>
    decreases d.branches.Keys - seen
  {
    if cursor in seen then Err(Cycle(cursor))
    else match BranchOf(d, cursor)
      case Err(e) => Err(e)
      case Ok(_) =>
        var parent := ParentOf(d, cursor);
        if parent == "" then Ok([])
        else
          var rest := AncestorsFrom(d, parent, seen + {cursor});
          if rest.Err? then rest else Ok([parent] + rest.value)
  }

  function SessionAncestors(d: Disk, current: string): Result<seq<string>, WalkError> {
    var cursor := TrimSpace(current);
    if cursor == "" then Ok([]) else AncestorsFrom(d, cursor, {})
  }

  function IsAncestorFrom(d: Disk, ancestor: string, cursor: string, seen: set<string>): Result<bool, WalkError>
    decreases d.branches.Keys - seen
  {
    if cursor == "" then Ok(false)
    else if cursor in seen then Err(Cycle(cursor))
    else match BranchOf(d, cursor)
      case Err(e) => Err(e)
      case Ok(_) =>
        if cursor == ancestor then Ok(true) else IsAncestorFrom(d, ancestor, ParentOf(d, cursor), seen + {cursor})
  }

  function IsAncestor(d: Disk, ancestor: string, current: string): Result<bool, WalkError> {
    if TrimSpace(ancestor) == "" || TrimSpace(current) == "" then Ok(false)
    else IsAncestorFrom(d, TrimSpace(ancestor), TrimSpace(current), {})
  }

  method WalkAncestors(d: Disk, current: string) returns (r: Result<seq<string>, WalkError>)
    ensures r == SessionAncestors(d, current)
  {
    var start := TrimSpace(current);
    if start == "" {
      return Ok([]);
    }
    var ancestors: seq<string>, seen, cursor := [], {}, start;
    ghost var all := AncestorsFrom(d, start, {});
    assert all.Ok? ==> ancestors + all.value == all.value;
    while cursor != ""
      invariant cursor != ""
      invariant AncestorsFrom(d, start, {}) ==
        var rest := AncestorsFrom(d, cursor, seen); if rest.Err? then rest else Ok(ancestors + rest.value)
      decreases d.branches.Keys - seen
    {
      if cursor in seen {
        return Err(Cycle(cursor));
      }
      if cursor !in d.branches {
        return Err(MissingMeta(cursor));
      }
      if !d.branches[cursor].Readable? {
        return Err(LoadFailed(cursor));
      }
      var m := d.branches[cursor].value;
      if TrimSpace(LoadedId(m, cursor)) != cursor {
        return Err(WrongId(cursor));
      }
      seen := seen + {cursor};
      var parent := TrimSpace(m.parentId);
      if parent == "" {
        assert ancestors + [] == ancestors;
        break;
      }
      ghost var rest := AncestorsFrom(d, parent, seen);
      assert rest.Ok? ==> ancestors + ([parent] + rest.value) == (ancestors + [parent]) + rest.value;
      ancestors := ancestors + [parent];
      cursor := parent;
    }
    r := Ok(ancestors);
  }

  method CheckAncestor(d: Disk, ancestor: string, current: string) returns (r: Result<bool, WalkError>)
    ensures r == IsAncestor(d, ancestor, current)
  {
    var wanted, cursor := TrimSpace(ancestor), TrimSpace(current);
    if wanted == "" || cursor == "" {
      return Ok(false);
    }
    var seen := {};
    while cursor != ""
      invariant IsAncestor(d, ancestor, current) == IsAncestorFrom(d, wanted, cursor, seen)
      decreases d.branches.Keys - seen
    {
      if cursor in seen {
        return Err(Cycle(cursor));
      }
      if cursor !in d.branches {
        return Err(MissingMeta(cursor));
      }
      if !d.branches[cursor].Readable? {
        return Err(LoadFailed(cursor));
      }
      var m := d.branches[cursor].value;
      if TrimSpace(LoadedId(m, cursor)) != cursor {
        return Err(WrongId(cursor));
      }
      if cursor == wanted {
        return Ok(true);
      }
      seen := seen + {cursor};
      cursor := TrimSpace(m.parentId);
    }
    r := Ok(false);
  }

  /** A path that follows the parent links up to a root, meeting no session twice. */
  predicate ChainToRoot(d: Disk, path: seq<string>) {
    path != [] &&
    (forall k :: 0 <= k < |path| ==> BranchOf(d, path[k]).Ok?) &&
    (forall k :: 0 < k < |path| ==> path[k] == ParentOf(d, path[k - 1]) && path[k] != "") &&
    ParentOf(d, path[|path| - 1]) == "" &&
    (forall j, k :: 0 <= j < k < |path| ==> path[j] != path[k])
  }

  lemma ChainLonger(d: Disk, cursor: string, path: seq<string>)
    requires ChainToRoot(d, path) && BranchOf(d, cursor).Ok? && path[0] == ParentOf(d, cursor) && path[0] != ""
    requires forall k :: 0 <= k < |path| ==> path[k] != cursor
    ensures ChainToRoot(d, [cursor] + path)
  {
    hide BranchOf, ParentOf;
  }

  lemma {:induction false} AncestorsChain(d: Disk, cursor: string, seen: set<string>)
    requires AncestorsFrom(d, cursor, seen).Ok?
    ensures var path := [cursor] + AncestorsFrom(d, cursor, seen).value;
      ChainToRoot(d, path) && forall k :: 0 <= k < |path| ==> path[k] !in seen
    decreases d.branches.Keys - seen
  {
    var parent := ParentOf(d, cursor);
    assert parent == "" && BranchOf(d, cursor).Ok? ==> ChainToRoot(d, [cursor]);
    hide ParentOf, ChainToRoot;
    if parent != "" {
      AncestorsChain(d, parent, seen + {cursor});
      var path := [parent] + AncestorsFrom(d, parent, seen + {cursor}).value;
      assert AncestorsFrom(d, cursor, seen).value == path;
      ChainLonger(d, cursor, path);
    } else {
      assert [cursor] + [] == [cursor];
    }
  }

  /** A successful walk lists exactly the parent chain: non-empty names, each checked, up to a
      session without a parent. */
  lemma AncestorsAreTheChain(d: Disk, current: string)
    requires TrimSpace(current) != "" && SessionAncestors(d, current).Ok?
    ensures ChainToRoot(d, [TrimSpace(current)] + SessionAncestors(d, current).value)
  {
    hide TrimSpace, ChainToRoot;
    AncestorsChain(d, TrimSpace(current), {});
  }

  lemma {:induction false} WalksAgreeFrom(d: Disk, ancestor: string, cursor: string, seen: set<string>)
    requires cursor != "" && ancestor != ""
    ensures var list, found := AncestorsFrom(d, cursor, seen), IsAncestorFrom(d, ancestor, cursor, seen);
      if list.Ok? then found == Ok(ancestor == cursor || ancestor in list.value)
      else found == Ok(true) || found == Err(list.error)
    decreases d.branches.Keys - seen
  {
    var parent := ParentOf(d, cursor);
    if cursor !in seen && BranchOf(d, cursor).Ok? && parent != "" {
      hide ParentOf;
      WalksAgreeFrom(d, ancestor, parent, seen + {cursor});
    }
  }

  /** When the ancestor walk succeeds, the membership test says yes exactly to the session
      itself and its ancestors; when it fails, the test fails with the same error or has found
      the ancestor before. */
  lemma WalksAgree(d: Disk, ancestor: string, current: string)
    requires TrimSpace(ancestor) != "" && TrimSpace(current) != ""
    ensures var list, found := SessionAncestors(d, current), IsAncestor(d, ancestor, current);
      if list.Ok? then found == Ok(TrimSpace(ancestor) == TrimSpace(current) || TrimSpace(ancestor) in list.value)
      else found == Ok(true) || found == Err(list.error)
  {
    hide TrimSpace;
    WalksAgreeFrom(d, TrimSpace(ancestor), TrimSpace(current), {});
  }

  // ----- fork history -----

  /** LoadMeta: the sidecar of a well-formed reference. */
  function LoadMeta(d: Disk, ref: string): Option<SubagentMeta> {
    if ValidRef(ref) && ref in d.metas && d.metas[ref].Readable? then Some(d.metas[ref].value) else None
  }

  /** The next reference up the fork history, "" at its end or when it cannot be read. */
  function ForkParent(d: Disk, ref: string): string {
    if LoadMeta(d, ref).Some? then TrimSpace(LoadMeta(d, ref).value.forkedFrom) else ""
  }

  function DerivesWalk(d: Disk, cursor: string, seen: set<string>, source: string): bool
    decreases d.metas.Keys - seen
  {
    if cursor == "" then false
    else if cursor == source then true
    else if cursor in seen || LoadMeta(d, cursor).None? then false
    else DerivesWalk(d, ForkParent(d, cursor), seen + {cursor}, source)
  }

  predicate DerivesFrom(d: Disk, meta: SubagentMeta, source: string) {
    DerivesWalk(d, TrimSpace(meta.forkedFrom), {}, TrimSpace(source))
  }

  method CheckDerives(d: Disk, meta: SubagentMeta, sourceRef: string) returns (r: bool)
    ensures r == DerivesFrom(d, meta, sourceRef)
  {
    var source, seen, cursor := TrimSpace(sourceRef), {}, TrimSpace(meta.forkedFrom);
    while cursor != ""
      invariant DerivesFrom(d, meta, sourceRef) == DerivesWalk(d, cursor, seen, source)
      decreases d.metas.Keys - seen
    {
      if cursor == source {
        return true;
      }
      if cursor in seen {
        return false;
      }
      if LoadMeta(d, cursor).None? {
        return false;
      }
      seen := seen + {cursor};
      cursor := ForkParent(d, cursor);
    }
    r := false;
  }

  /** The reference n links up from start. */
  function Up(d: Disk, start: string, n: nat): string {
    if n == 0 then start else ForkParent(d, Up(d, start, n - 1))
  }

  lemma {:induction false} UpAgain(d: Disk, start: string, a: nat, b: nat, k: nat)
    requires Up(d, start, a) == Up(d, start, b)
    ensures Up(d, start, a + k) == Up(d, start, b + k)
    decreases k
  {
    hide ForkParent;
    if k > 0 {
      UpAgain(d, start, a, b, k - 1);
    }
  }

  lemma {:induction false} UpEnds(d: Disk, start: string, n: nat, k: nat)
    requires Up(d, start, n) == ""
    ensures Up(d, start, n + k) == ""
    decreases k
  {
    assert ForkParent(d, "") == "" by { assert !ValidRef(""); }
    hide ForkParent;
    if k > 0 {
      UpEnds(d, start, n, k - 1);
    }
  }

  predicate FirstAt(d: Disk, start: string, source: string, n: nat) {
    source != "" && Up(d, start, n) == source && forall m :: 0 <= m < n ==> Up(d, start, m) != source
  }

  lemma NoRepeat(d: Disk, start: string, source: string, n: nat, i: nat, m: nat)
    requires FirstAt(d, start, source, n) && m < i <= n
    ensures Up(d, start, m) != Up(d, start, i)
  {
    hide Up;
    if Up(d, start, m) == Up(d, start, i) {
      UpAgain(d, start, m, i, n - i);
    }
  }

  lemma NotEnded(d: Disk, start: string, source: string, n: nat, i: nat)
    requires FirstAt(d, start, source, n) && i <= n
    ensures Up(d, start, i) != ""
  {
    hide Up;
    if Up(d, start, i) == "" {
      UpEnds(d, start, i, n - i);
    }
  }

  /** Before the first hit the walk is on readable references it has not seen. */
  lemma StillWalking(d: Disk, start: string, source: string, n: nat, i: nat)
    requires FirstAt(d, start, source, n) && i < n
    ensures Up(d, start, i) != "" && LoadMeta(d, Up(d, start, i)).Some?
    ensures forall m :: 0 <= m < i ==> Up(d, start, m) != Up(d, start, i)
  {
    assert LoadMeta(d, Up(d, start, i)).None? ==> Up(d, start, i + 1) == "";
    hide LoadMeta, ForkParent, Up, FirstAt;
    NotEnded(d, start, source, n, i);
    NotEnded(d, start, source, n, i + 1);
    forall m | 0 <= m < i ensures Up(d, start, m) != Up(d, start, i) {
      NoRepeat(d, start, source, n, i, m);
    }
  }

  /** Everything seen was passed in the first i links. */
  ghost predicate Passed(d: Disk, start: string, seen: set<string>, i: nat) {
    forall x :: x in seen ==> exists m :: 0 <= m < i && Up(d, start, m) == x
  }

  lemma PassedOn(d: Disk, start: string, seen: set<string>, i: nat)
    requires Passed(d, start, seen, i)
    ensures Passed(d, start, seen + {Up(d, start, i)}, i + 1)
  {
    hide Up;
    forall x | x in seen + {Up(d, start, i)} ensures exists m :: 0 <= m < i + 1 && Up(d, start, m) == x {
      if x != Up(d, start, i) {
        var m :| 0 <= m < i && Up(d, start, m) == x;
      }
    }
  }

  lemma NotPassed(d: Disk, start: string, seen: set<string>, i: nat)
    requires Passed(d, start, seen, i) && forall m :: 0 <= m < i ==> Up(d, start, m) != Up(d, start, i)
    ensures Up(d, start, i) !in seen
  {
  }

  lemma {:induction false} WalkFinds(d: Disk, start: string, source: string, n: nat, i: nat, seen: set<string>)
    requires i <= n && FirstAt(d, start, source, n) && Passed(d, start, seen, i)
    ensures DerivesWalk(d, Up(d, start, i), seen, source)
    decreases n - i
  {
    assert FirstAt(d, start, source, n) ==> source != "" && Up(d, start, n) == source;
    if i < n {
      StillWalking(d, start, source, n, i);
      NotPassed(d, start, seen, i);
      assert Up(d, start, i + 1) == ForkParent(d, Up(d, start, i));
      hide LoadMeta, ForkParent, Up, FirstAt, Passed;
      PassedOn(d, start, seen, i);
      WalkFinds(d, start, source, n, i + 1, seen + {Up(d, start, i)});
    }
  }

  lemma {:induction false} WalkSound(d: Disk, start: string, i: nat, seen: set<string>, source: string)
    requires DerivesWalk(d, Up(d, start, i), seen, source)
    ensures source != "" && exists n :: n >= i && Up(d, start, n) == source
    decreases d.metas.Keys - seen
  {
    var cursor := Up(d, start, i);
    if cursor != source {
      assert Up(d, start, i + 1) == ForkParent(d, cursor);
      WalkSound(d, start, i + 1, seen + {cursor}, source);
    }
  }

  lemma {:induction false} FirstHit(d: Disk, start: string, source: string, n: nat) returns (first: nat)
    requires Up(d, start, n) == source
    ensures first <= n && Up(d, start, first) == source && forall m :: 0 <= m < first ==> Up(d, start, m) != source
    decreases n
  {
    if m :| 0 <= m < n && Up(d, start, m) == source {
      first := FirstHit(d, start, source, m);
    } else {
      first := n;
    }
  }

  /** On any graph, cycles included, the walk says yes exactly when the source is some number of
      links up the fork history. */
  lemma DerivesIff(d: Disk, meta: SubagentMeta, source: string)
    ensures DerivesFrom(d, meta, source) <==>
      TrimSpace(source) != "" && exists n: nat :: Up(d, TrimSpace(meta.forkedFrom), n) == TrimSpace(source)
  {
    var start, s := TrimSpace(meta.forkedFrom), TrimSpace(source);
    hide TrimSpace;
    if DerivesFrom(d, meta, source) {
      assert Up(d, start, 0) == start;
      WalkSound(d, start, 0, {}, s);
    }
    if s != "" && exists n: nat :: Up(d, start, n) == s {
      var n: nat :| Up(d, start, n) == s;
      var first := FirstHit(d, start, s, n);
      assert Up(d, start, 0) == start;
      WalkFinds(d, start, s, first, 0, {});
    }
  }
}
