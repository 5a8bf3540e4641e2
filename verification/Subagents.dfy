/** Preparing a sub-agent run: fresh, continued, or copied from an ancestor conversation
    (internal/agent/subagent_store.go). Files do not change during one call. */
module Subagents {
  import opened Text
  import opened Lineage

  /** The invocation; identity is the current one, before trimming. */
  datatype Spec = Spec(parentSession: string, parentToolCallId: string, identity: Identity)

  datatype Error =
    | NoParentSession
    | EmptyRef
    | InvalidRef
    | Busy
    | MetaUnreadable
    | NotFinished
    | WrongIdentity
    | NoOwner
    | OwnerUnverified(error: WalkError)
    | OwnerNotInLineage
    | LineageFailed(error: WalkError)
    | NotInLineage
    | ManyCandidates
    | ManyCopies
    | ListingFailed
    | TranscriptUnreadable
    | NoNewRef
    | UseContinueInstead

  /** A prepared run; transcript is the reference whose messages it starts from, "" if none. */
  datatype Run = Run(ref: string, meta: SubagentMeta, transcript: string, forkedFrom: string)

  function Current(spec: Spec): string {
    TrimSpace(spec.parentSession)
  }

  function WantedIdentity(i: Identity): Identity {
    i.(kind := TrimSpace(i.kind), name := TrimSpace(i.name), workspaceRoot := TrimSpace(i.workspaceRoot),
       model := TrimSpace(i.model), effort := TrimSpace(i.effort))
  }

  function MetaFromSpec(ref: string, spec: Spec): SubagentMeta {
    SubagentMeta(ref, Status.Running, Current(spec), TrimSpace(spec.parentToolCallId), "",
      WantedIdentity(spec.identity))
  }

  /** validateMeta: only a finished run of the very same identity can go on. */
  function Problem(meta: SubagentMeta, spec: Spec): Option<Error> {
    if meta.status.Running? || meta.status.Failed? || meta.status.Interrupted? then Some(NotFinished)
    else if meta.identity != WantedIdentity(spec.identity) then Some(WrongIdentity)
    else None
  }

  function Owner(meta: SubagentMeta): string {
    TrimSpace(meta.parentSession)
  }

  /** validateForkOwner: the source belongs to this conversation or to an ancestor of it. */
  function ForkOwnerProblem(d: Disk, meta: SubagentMeta, spec: Spec): Option<Error> {
    if Owner(meta) == Current(spec) then None
    else if Owner(meta) == "" then Some(NoOwner)
    else match IsAncestor(d, Owner(meta), Current(spec))
      case Err(e) => Some(OwnerUnverified(e))
      case Ok(yes) => if yes then None else Some(OwnerNotInLineage)
  }

  // ----- listing -----

  /** The references from position i on whose sidecar names the parent session. */
  function ListFrom(d: Disk, parent: string, i: nat): Result<seq<string>, Error>
    requires i <= |d.names|
    decreases |d.names| - i
  {
    if i == |d.names| then Ok([])
    else
      var ref := d.names[i];
      if !ValidRef(ref) then ListFrom(d, parent, i + 1)
      else if ref !in d.metas || d.metas[ref].Unreadable? then Err(ListingFailed)
      else if d.metas[ref].Readable? && Owner(d.metas[ref].value) == parent then
        var rest := ListFrom(d, parent, i + 1);
        if rest.Err? then rest else Ok([ref] + rest.value)
      else ListFrom(d, parent, i + 1)
  }

  function ListByParent(d: Disk, parentSession: string): Result<seq<string>, Error> {
    if TrimSpace(parentSession) == "" then Ok([])
    else if !d.listable then Err(ListingFailed)
    else ListFrom(d, TrimSpace(parentSession), 0)
  }

  method ListSubagentsByParent(d: Disk, parentSession: string) returns (r: Result<seq<string>, Error>)
    ensures r == ListByParent(d, parentSession)
  {
    hide ValidRef, TrimSpace;
    var parent := TrimSpace(parentSession);
    if parent == "" {
      return Ok([]);
    }
    if !d.listable {
      return Err(ListingFailed);
    }
    var out: seq<string> := [];
    ghost var all := ListFrom(d, parent, 0);
    assert all.Ok? ==> out + all.value == all.value;
    for i := 0 to |d.names|
      invariant ListFrom(d, parent, 0) ==
        var rest := ListFrom(d, parent, i); if rest.Err? then rest else Ok(out + rest.value)
    {
      var ref := d.names[i];
      if ValidRef(ref) {
        if ref !in d.metas || d.metas[ref].Unreadable? {
          return Err(ListingFailed);
        }
        if d.metas[ref].Readable? && Owner(d.metas[ref].value) == parent {
          ghost var rest := ListFrom(d, parent, i + 1);
          assert rest.Ok? ==> out + ([ref] + rest.value) == (out + [ref]) + rest.value;
          out := out + [ref];
        }
      }
    }
    assert out + [] == out;
    r := Ok(out);
  }

  lemma {:induction false} ListedFrom(d: Disk, parent: string, i: nat, ref: string)
    requires i <= |d.names| && ListFrom(d, parent, i).Ok?
    ensures ref in ListFrom(d, parent, i).value <==>
      ref in d.names[i..] && LoadMeta(d, ref).Some? && Owner(LoadMeta(d, ref).value) == parent
    decreases |d.names| - i
  {
    hide ValidRef, Owner;
    if i < |d.names| {
      ListedFrom(d, parent, i + 1, ref);
      assert d.names[i..] == [d.names[i]] + d.names[i + 1..];
    }
  }

  /** The directory holds a well-formed sidecar name whose file cannot be read. */
  predicate BrokenSidecar(d: Disk, i: nat) {
    i < |d.names| && ValidRef(d.names[i]) && (d.names[i] !in d.metas || d.metas[d.names[i]].Unreadable?)
  }

  lemma {:induction false} ListFromFails(d: Disk, parent: string, i: nat)
    requires i <= |d.names|
    ensures ListFrom(d, parent, i).Err? <==> exists k :: i <= k && BrokenSidecar(d, k)
    ensures ListFrom(d, parent, i).Err? ==> ListFrom(d, parent, i).error.ListingFailed?
    decreases |d.names| - i
  {
    hide ValidRef, Owner;
    if i < |d.names| {
      ListFromFails(d, parent, i + 1);
      assert ListFrom(d, parent, i).Err? <==> BrokenSidecar(d, i) || ListFrom(d, parent, i + 1).Err?;
    }
  }

  /** A listing fails if and only if there is a parent to ask for and the directory cannot be
      listed or one of its sidecars cannot be read, whosever it is. */
  lemma ListingFailsExactly(d: Disk, parentSession: string)
    ensures ListByParent(d, parentSession) == Err(ListingFailed) <==>
      TrimSpace(parentSession) != "" && (!d.listable || exists k :: BrokenSidecar(d, k))
    ensures ListByParent(d, parentSession).Ok? || ListByParent(d, parentSession) == Err(ListingFailed)
  {
    ListFromFails(d, TrimSpace(parentSession), 0);
    hide TrimSpace, BrokenSidecar;
  }

  // ----- the source in the lineage -----

  predicate Candidate(d: Disk, ref: string, requested: string) {
    LoadMeta(d, ref).Some? && (ref == requested || DerivesFrom(d, LoadMeta(d, ref).value, requested))
  }

  lemma CandidateIsReadable(d: Disk, ref: string, requested: string)
    requires Candidate(d, ref, requested)
    ensures LoadMeta(d, ref).Some?
  {
  }

  function Candidates(d: Disk, refs: seq<string>, requested: string): (r: seq<string>)
    ensures forall x :: x in r <==> x in refs && Candidate(d, x, requested)
  {
    if refs == [] then []
    else
      var init, last := Candidates(d, refs[..|refs| - 1], requested), refs[|refs| - 1];
      assert refs == refs[..|refs| - 1] + [last];
      if Candidate(d, last, requested) then init + [last] else init
  }

  function NearestFrom(d: Disk, ancestors: seq<string>, requested: string, spec: Spec): Result<string, Error> {
    if ancestors == [] then Err(NotInLineage)
    else match ListByParent(d, ancestors[0])
      case Err(e) => Err(e)
      case Ok(refs) =>
        var found := Candidates(d, refs, requested);
        if |found| > 1 then Err(ManyCandidates)
        else if |found| == 1 then
          assert found[0] in found;
          var problem := Problem(LoadMeta(d, found[0]).value, spec);
          if problem.Some? then Err(problem.value) else Ok(found[0])
        else NearestFrom(d, ancestors[1..], requested, spec)
  }

  function NearestLineageSource(d: Disk, requested: string, spec: Spec): Result<string, Error> {
    match SessionAncestors(d, spec.parentSession)
    case Err(e) => Err(LineageFailed(e))
    case Ok(ancestors) => NearestFrom(d, ancestors, requested, spec)
  }

  method FindNearestSource(d: Disk, requested: string, spec: Spec) returns (r: Result<string, Error>)
    ensures r == NearestLineageSource(d, requested, spec)
  {
    hide Candidate, ListByParent, Problem;
    var walk := WalkAncestors(d, spec.parentSession);
    if walk.Err? {
      return Err(LineageFailed(walk.error));
    }
    var ancestors := walk.value;
    var i := 0;
    while i < |ancestors|
      invariant i <= |ancestors|
      invariant NearestFrom(d, ancestors, requested, spec) == NearestFrom(d, ancestors[i..], requested, spec)
    {
      var refs := ListSubagentsByParent(d, ancestors[i]);
      if refs.Err? {
        return Err(refs.error);
      }
      var found: seq<string> := [];
      for k := 0 to |refs.value|
        invariant found == Candidates(d, refs.value[..k], requested)
      {
        assert refs.value[..k + 1][..k] == refs.value[..k];
        if Candidate(d, refs.value[k], requested) {
          found := found + [refs.value[k]];
        }
      }
      assert refs.value[..|refs.value|] == refs.value;
      if |found| > 1 {
        return Err(ManyCandidates);
      }
      if |found| == 1 {
        assert found[0] in found;
        CandidateIsReadable(d, found[0], requested);
        var problem := Problem(LoadMeta(d, found[0]).value, spec);
        if problem.Some? {
          return Err(problem.value);
        }
        return Ok(found[0]);
      }
      assert ancestors[i..][1..] == ancestors[i + 1..];
      i := i + 1;
    }
    r := Err(NotInLineage);
  }

  function CopiesFrom(d: Disk, refs: seq<string>, source: string, spec: Spec): Result<seq<string>, Error>
    requires forall x :: x in refs ==> LoadMeta(d, x).Some?
  {
    if refs == [] then Ok([])
    else
      var meta := LoadMeta(d, refs[0]).value;
      if TrimSpace(meta.forkedFrom) != source then CopiesFrom(d, refs[1..], source, spec)
      else if Problem(meta, spec).Some? then Err(Problem(meta, spec).value)
      else
        var rest := CopiesFrom(d, refs[1..], source, spec);
        if rest.Err? then rest else Ok([refs[0]] + rest.value)
  }

  function CompatibleCopies(d: Disk, source: string, spec: Spec): Result<seq<string>, Error> {
    match ListByParent(d, spec.parentSession)
    case Err(e) => Err(e)
    case Ok(refs) =>
      ListedAreReadable(d, spec.parentSession);
      CopiesFrom(d, refs, source, spec)
  }

  lemma ListedAreReadable(d: Disk, parentSession: string)
    requires ListByParent(d, parentSession).Ok?
    ensures forall ref :: ref in ListByParent(d, parentSession).value ==>
      LoadMeta(d, ref).Some? && Owner(LoadMeta(d, ref).value) == TrimSpace(parentSession) != "" && ref in d.names
  {
    if TrimSpace(parentSession) != "" {
      forall ref | ref in ListByParent(d, parentSession).value
        ensures LoadMeta(d, ref).Some? && Owner(LoadMeta(d, ref).value) == TrimSpace(parentSession) && ref in d.names
      {
        ListedFrom(d, TrimSpace(parentSession), 0, ref);
        assert d.names[0..] == d.names;
      }
    }
  }

  lemma {:induction false} CopiesAre(d: Disk, refs: seq<string>, source: string, spec: Spec, ref: string)
    requires (forall x :: x in refs ==> LoadMeta(d, x).Some?) && CopiesFrom(d, refs, source, spec).Ok?
    ensures ref in CopiesFrom(d, refs, source, spec).value <==>
      ref in refs && TrimSpace(LoadMeta(d, ref).value.forkedFrom) == source
    ensures ref in CopiesFrom(d, refs, source, spec).value ==> Problem(LoadMeta(d, ref).value, spec).None?
  {
    hide LoadMeta, TrimSpace, Problem;
    if refs != [] {
      CopiesAre(d, refs[1..], source, spec, ref);
      assert ref in refs <==> ref == refs[0] || ref in refs[1..];
    }
  }

  method FindCopies(d: Disk, source: string, spec: Spec) returns (r: Result<seq<string>, Error>)
    ensures r == CompatibleCopies(d, source, spec)
  {
    hide LoadMeta, TrimSpace, Problem, ListByParent, Owner;
    var listed := ListSubagentsByParent(d, spec.parentSession);
    if listed.Err? {
      return Err(listed.error);
    }
    ListedAreReadable(d, spec.parentSession);
    var refs, copies := listed.value, [];
    ghost var all := CopiesFrom(d, refs, source, spec);
    assert all.Ok? ==> copies + all.value == all.value;
    assert refs[0..] == refs;
    for i := 0 to |refs|
      invariant CopiesFrom(d, refs, source, spec) ==
        var rest := CopiesFrom(d, refs[i..], source, spec); if rest.Err? then rest else Ok(copies + rest.value)
    {
      var meta := LoadMeta(d, refs[i]).value;
      assert refs[i..][1..] == refs[i + 1..];
      if TrimSpace(meta.forkedFrom) == source {
        var problem := Problem(meta, spec);
        if problem.Some? {
          return Err(problem.value);
        }
        ghost var rest := CopiesFrom(d, refs[i + 1..], source, spec);
        assert rest.Ok? ==> copies + ([refs[i]] + rest.value) == (copies + [refs[i]]) + rest.value;
        copies := copies + [refs[i]];
      }
    }
    assert copies + [] == copies;
    r := Ok(copies);
  }

  // ----- what a preparation yields -----

  function LockProblem(locked: set<string>, ref: string): Option<Error> {
    if !ValidRef(ref) then Some(InvalidRef) else if ref in locked then Some(Busy) else None
  }

  function Fresh(locked: set<string>, spec: Spec, newRef: Option<string>): Result<Run, Error> {
    if Current(spec) == "" then Err(NoParentSession)
    else if newRef.None? then Err(NoNewRef)
    else if LockProblem(locked, newRef.value).Some? then Err(LockProblem(locked, newRef.value).value)
    else Ok(Run(newRef.value, MetaFromSpec(newRef.value, spec), "", ""))
  }

  function Fork(d: Disk, locked: set<string>, ref: string, spec: Spec, newRef: Option<string>): Result<Run, Error> {
    var source := TrimSpace(ref);
    if Current(spec) == "" then Err(NoParentSession)
    else if source == "" then Err(EmptyRef)
    else if LockProblem(locked, source).Some? then Err(LockProblem(locked, source).value)
    else match LoadMeta(d, source)
      case None => Err(MetaUnreadable)
      case Some(meta) =>
        if Owner(meta) == "" then Err(NoOwner)
        else if Problem(meta, spec).Some? then Err(Problem(meta, spec).value)
        else if ForkOwnerProblem(d, meta, spec).Some? then Err(ForkOwnerProblem(d, meta, spec).value)
        else if source !in d.transcripts then Err(TranscriptUnreadable)
        else if newRef.None? then Err(NoNewRef)
        else if LockProblem(locked, newRef.value).Some? then Err(LockProblem(locked, newRef.value).value)
        else Ok(Run(newRef.value, MetaFromSpec(newRef.value, spec).(forkedFrom := source), source, source))
  }

  /** 0 when the reference belongs to the current conversation, so continuing it is direct. */
  function Distance(d: Disk, ref: string, spec: Spec): nat {
    var meta := LoadMeta(d, TrimSpace(ref));
    if meta.Some? && Owner(meta.value) == Current(spec) then 0 else 1
  }

  function Continue(d: Disk, locked: set<string>, ref: string, spec: Spec, newRef: Option<string>): Result<Run, Error>
    decreases Distance(d, ref, spec), 1
  {
    var r := TrimSpace(ref);
    if Current(spec) == "" then Err(NoParentSession)
    else if r == "" then Err(EmptyRef)
    else if LockProblem(locked, r).Some? then Err(LockProblem(locked, r).value)
    else match LoadMeta(d, r)
      case None => Err(MetaUnreadable)
      case Some(meta) =>
        if Owner(meta) != Current(spec) then FromAncestor(d, locked, r, spec, newRef)
        else if Problem(meta, spec).Some? then Err(Problem(meta, spec).value)
        else if r !in d.transcripts then Err(TranscriptUnreadable)
        else Ok(Run(r, meta.(parentSession := spec.parentSession, parentToolCallId := spec.parentToolCallId), r, ""))
  }

  function FromAncestor(d: Disk, locked: set<string>, ref: string, spec: Spec, newRef: Option<string>)
    : Result<Run, Error>
    decreases 1, 0
  {
    match NearestLineageSource(d, ref, spec)
    case Err(e) => Err(e)
    case Ok(source) =>
      match CompatibleCopies(d, source, spec)
      case Err(e) => Err(e)
      case Ok(copies) =>
        if copies == [] then Fork(d, locked, source, spec, newRef)
        else if |copies| == 1 then
          CopyIsNear(d, source, spec, copies[0]);
          var run := Continue(d, locked, copies[0], spec, newRef);
          if run.Err? then run else Ok(run.value.(forkedFrom := source))
        else Err(ManyCopies)
  }

  /** A copy found in the current conversation is owned by it, which ends the recursion. */
  lemma CopyIsNear(d: Disk, source: string, spec: Spec, copy: string)
    requires CompatibleCopies(d, source, spec).Ok? && copy in CompatibleCopies(d, source, spec).value
    ensures Distance(d, copy, spec) == 0 && LoadMeta(d, copy).Some? && Problem(LoadMeta(d, copy).value, spec).None?
    ensures TrimSpace(LoadMeta(d, copy).value.forkedFrom) == source && Owner(LoadMeta(d, copy).value) == Current(spec)
    ensures TrimSpace(copy) == copy
  {
    ListedAreReadable(d, spec.parentSession);
    CopiesAre(d, ListByParent(d, spec.parentSession).value, source, spec, copy);
    assert ValidRef(copy);
    ValidRefTrimmed(copy);
  }

  function LegacyFork(d: Disk, locked: set<string>, ref: string, spec: Spec, newRef: Option<string>)
    : Result<Run, Error>
  {
    var r := TrimSpace(ref);
    if Current(spec) == "" then Err(NoParentSession)
    else if r == "" then Err(EmptyRef)
    else if LockProblem(locked, r).Some? then Err(LockProblem(locked, r).value)
    else match LoadMeta(d, r)
      case None => Err(MetaUnreadable)
      case Some(meta) =>
        if Owner(meta) == "" then Err(NoOwner)
        else if Owner(meta) == Current(spec) then
          Err(if Problem(meta, spec).Some? then Problem(meta, spec).value else UseContinueInstead)
        else Continue(d, locked, r, spec, newRef)
  }

  // ----- the store -----

  /** Every preparation leaves the locks as they were or adds exactly the returned reference. */
  class SubagentStore {
    const disk: Disk
    var locked: set<string>

    constructor (disk: Disk)
      ensures this.disk == disk && locked == {}
    {
      this.disk, locked := disk, {};
    }

    method Lock(ref: string) returns (problem: Option<Error>)
      modifies this
      ensures problem == LockProblem(old(locked), ref)
      ensures locked == if problem.None? then old(locked) + {ref} else old(locked)
    {
      if !ValidRef(ref) {
        return Some(InvalidRef);
      }
      if ref in locked {
        return Some(Busy);
      }
      locked := locked + {ref};
      problem := None;
    }

    method Unlock(ref: string)
      modifies this
      ensures locked == old(locked) - {ref}
    {
      locked := locked - {ref};
    }

    method PrepareFresh(spec: Spec, newRef: Option<string>) returns (r: Result<Run, Error>)
      modifies this
      ensures r == Fresh(old(locked), spec, newRef)
      ensures locked == old(locked) + (if r.Ok? then {r.value.ref} else {}) && (r.Ok? ==> r.value.ref !in old(locked))
    {
      if Current(spec) == "" {
        return Err(NoParentSession);
      }
      if newRef.None? {
        return Err(NoNewRef);
      }
      var problem := Lock(newRef.value);
      if problem.Some? {
        return Err(problem.value);
      }
      r := Ok(Run(newRef.value, MetaFromSpec(newRef.value, spec), "", ""));
    }

    method PrepareContinue(ref: string, spec: Spec, newRef: Option<string>) returns (r: Result<Run, Error>)
      modifies this
      ensures r == Continue(disk, old(locked), ref, spec, newRef)
      ensures locked == old(locked) + (if r.Ok? then {r.value.ref} else {}) && (r.Ok? ==> r.value.ref !in old(locked))
      decreases Distance(disk, ref, spec), 1
    {
      hide TrimSpace, ValidRef, LoadMeta, Problem, FromAncestor, Owner, Current;
      var name := TrimSpace(ref);
      if Current(spec) == "" {
        return Err(NoParentSession);
      }
      if name == "" {
        return Err(EmptyRef);
      }
      var problem := Lock(name);
      if problem.Some? {
        return Err(problem.value);
      }
      var meta := LoadMeta(disk, name);
      if meta.None? {
        Unlock(name);
        return Err(MetaUnreadable);
      }
      if Owner(meta.value) != Current(spec) {
        Unlock(name);
        assert locked == old(locked);
        r := PrepareFromAncestor(name, spec, newRef);
        return;
      }
      if Problem(meta.value, spec).Some? {
        Unlock(name);
        return Err(Problem(meta.value, spec).value);
      }
      if name !in disk.transcripts {
        Unlock(name);
        return Err(TranscriptUnreadable);
      }
      r := Ok(Run(name, meta.value.(parentSession := spec.parentSession, parentToolCallId := spec.parentToolCallId),
        name, ""));
    }

    method PrepareFromAncestor(ref: string, spec: Spec, newRef: Option<string>) returns (r: Result<Run, Error>)
      modifies this
      ensures r == FromAncestor(disk, old(locked), ref, spec, newRef)
      ensures locked == old(locked) + (if r.Ok? then {r.value.ref} else {}) && (r.Ok? ==> r.value.ref !in old(locked))
      decreases 1, 0
    {
      hide Fork, Continue, NearestLineageSource, CompatibleCopies;
      var source := FindNearestSource(disk, ref, spec);
      if source.Err? {
        return Err(source.error);
      }
      var copies := FindCopies(disk, source.value, spec);
      if copies.Err? {
        return Err(copies.error);
      }
      if |copies.value| == 0 {
        r := PrepareFork(source.value, spec, newRef);
      } else if |copies.value| == 1 {
        CopyIsNear(disk, source.value, spec, copies.value[0]);
        r := PrepareContinue(copies.value[0], spec, newRef);
        if r.Ok? {
          r := Ok(r.value.(forkedFrom := source.value));
        }
      } else {
        r := Err(ManyCopies);
      }
    }

    method PrepareFork(ref: string, spec: Spec, newRef: Option<string>) returns (r: Result<Run, Error>)
      modifies this
      ensures r == Fork(disk, old(locked), ref, spec, newRef)
      ensures locked == old(locked) + (if r.Ok? then {r.value.ref} else {}) && (r.Ok? ==> r.value.ref !in old(locked))
    {
      hide TrimSpace, ValidRef, LoadMeta, Problem, Owner, Current, MetaFromSpec, IsAncestor;
      var source := TrimSpace(ref);
      if Current(spec) == "" {
        return Err(NoParentSession);
      }
      if source == "" {
        return Err(EmptyRef);
      }
      var problem := Lock(source);
      if problem.Some? {
        return Err(problem.value);
      }
      var meta := LoadMeta(disk, source);
      if meta.None? {
        Unlock(source);
        return Err(MetaUnreadable);
      }
      if Owner(meta.value) == "" {
        Unlock(source);
        return Err(NoOwner);
      }
      if Problem(meta.value, spec).Some? {
        Unlock(source);
        return Err(Problem(meta.value, spec).value);
      }
      problem := ValidateForkOwner(meta.value, spec);
      if problem.Some? {
        Unlock(source);
        return Err(problem.value);
      }
      if source !in disk.transcripts {
        Unlock(source);
        return Err(TranscriptUnreadable);
      }
      Unlock(source);
      if newRef.None? {
        return Err(NoNewRef);
      }
      assert locked == old(locked);
      problem := Lock(newRef.value);
      if problem.Some? {
        return Err(problem.value);
      }
      r := Ok(Run(newRef.value, MetaFromSpec(newRef.value, spec).(forkedFrom := source), source, source));
    }

    method ValidateForkOwner(meta: SubagentMeta, spec: Spec) returns (problem: Option<Error>)
      ensures problem == ForkOwnerProblem(disk, meta, spec)
    {
      if Owner(meta) == Current(spec) {
        return None;
      }
      if Owner(meta) == "" {
        return Some(NoOwner);
      }
      var found := CheckAncestor(disk, Owner(meta), Current(spec));
      if found.Err? {
        return Some(OwnerUnverified(found.error));
      }
      problem := if found.value then None else Some(OwnerNotInLineage);
    }

    method PrepareLegacyForkFrom(ref: string, spec: Spec, newRef: Option<string>) returns (r: Result<Run, Error>)
      modifies this
      ensures r == LegacyFork(disk, old(locked), ref, spec, newRef)
      ensures locked == old(locked) + (if r.Ok? then {r.value.ref} else {}) && (r.Ok? ==> r.value.ref !in old(locked))
    {
      hide TrimSpace, ValidRef, LoadMeta, Problem, Continue, Owner, Current;
      var name := TrimSpace(ref);
      if Current(spec) == "" {
        return Err(NoParentSession);
      }
      if name == "" {
        return Err(EmptyRef);
      }
      var problem := Lock(name);
      if problem.Some? {
        return Err(problem.value);
      }
      var meta := LoadMeta(disk, name);
      Unlock(name);
      assert locked == old(locked);
      if meta.None? {
        return Err(MetaUnreadable);
      }
      if Owner(meta.value) == "" {
        return Err(NoOwner);
      }
      if Owner(meta.value) == Current(spec) {
        return Err(if Problem(meta.value, spec).Some? then Problem(meta.value, spec).value else UseContinueInstead);
      }
      r := PrepareContinue(name, spec, newRef);
    }
  }
}
