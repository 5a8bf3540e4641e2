/** What continuing and copying sub-agents guarantees about lineage. */
module SubagentTheory {
  import opened Text
  import opened Lineage
  import opened Subagents

  predicate NoCandidateIn(d: Disk, ancestor: string, requested: string) {
    ListByParent(d, ancestor).Ok? &&
    forall ref :: ref in ListByParent(d, ancestor).value ==> !Candidate(d, ref, requested)
  }

  /** source is the candidate of ancestors[k], and no nearer ancestor has one. */
  predicate NearestAt(d: Disk, ancestors: seq<string>, requested: string, spec: Spec, source: string, k: nat) {
    k < |ancestors| && ListByParent(d, ancestors[k]).Ok? && source in ListByParent(d, ancestors[k]).value &&
    Candidate(d, source, requested) && Problem(LoadMeta(d, source).value, spec).None? &&
    forall j :: 0 <= j < k ==> NoCandidateIn(d, ancestors[j], requested)
  }

  lemma {:induction false} NearestFromIs(d: Disk, ancestors: seq<string>, requested: string, spec: Spec)
    returns (k: nat)
    requires NearestFrom(d, ancestors, requested, spec).Ok?
    ensures NearestAt(d, ancestors, requested, spec, NearestFrom(d, ancestors, requested, spec).value, k)
  {
    hide Candidate, Problem, ListByParent;
    var refs := ListByParent(d, ancestors[0]).value;
    var found := Candidates(d, refs, requested);
    if |found| == 1 {
      assert found[0] in found;
      k := 0;
    } else {
      assert NoCandidateIn(d, ancestors[0], requested) by {
        forall ref | ref in refs ensures !Candidate(d, ref, requested) {
          assert ref in found <==> Candidate(d, ref, requested);
        }
      }
      hide NoCandidateIn;
      var i := NearestFromIs(d, ancestors[1..], requested, spec);
      k := i + 1;
      forall j | 0 <= j < k ensures NoCandidateIn(d, ancestors[j], requested) {
        if j > 0 {
          assert ancestors[j] == ancestors[1..][j - 1];
        }
      }
    }
  }

  /** The lineage source is finished, of the same identity, the requested run or a copy derived
      from it, and belongs to the nearest ancestor conversation that has such a run. */
  lemma NearestSourceIs(d: Disk, requested: string, spec: Spec) returns (k: nat)
    requires NearestLineageSource(d, requested, spec).Ok?
    ensures SessionAncestors(d, spec.parentSession).Ok?
    ensures NearestAt(d, SessionAncestors(d, spec.parentSession).value, requested, spec,
      NearestLineageSource(d, requested, spec).value, k)
    ensures var source := NearestLineageSource(d, requested, spec).value;
      LoadMeta(d, source).Some? && TrimSpace(source) == source &&
      Owner(LoadMeta(d, source).value) == TrimSpace(SessionAncestors(d, spec.parentSession).value[k]) != ""
  {
    var ancestors := SessionAncestors(d, spec.parentSession).value;
    k := NearestFromIs(d, ancestors, requested, spec);
    hide NearestFrom, Candidate, Problem, ListByParent, NoCandidateIn;
    var source := NearestLineageSource(d, requested, spec).value;
    ListedAreReadable(d, ancestors[k]);
    ValidRefTrimmed(source);
  }

  lemma {:induction false} AncestorsAreTrimmed(d: Disk, cursor: string, seen: set<string>)
    requires AncestorsFrom(d, cursor, seen).Ok?
    ensures forall a :: a in AncestorsFrom(d, cursor, seen).value ==> TrimSpace(a) == a && a != ""
    decreases d.branches.Keys - seen
  {
    var parent := ParentOf(d, cursor);
    assert parent != "" ==> TrimSpace(parent) == parent by {
      if BranchOf(d, cursor).Ok? {
        Retrimmed(BranchOf(d, cursor).value.parentId);
      }
    }
    hide TrimSpace, BranchOf, ParentOf;
    if parent != "" {
      AncestorsAreTrimmed(d, parent, seen + {cursor});
    }
  }

  lemma Retrimmed(s: string)
    ensures TrimSpace(TrimSpace(s)) == TrimSpace(s)
  {
    TrimLeftSplits(s);
    var t := TrimLeft(s);
    TrimRightSplits(t);
    var r := TrimRight(t);
    if r != "" {
      assert r[0] == t[0];
      TrimSpaceFixes(r);
    }
  }

  /** The two lineage walks fit together: a source found along the ancestors is always accepted
      as the owner of a copy. */
  lemma SourceIsAccepted(d: Disk, requested: string, spec: Spec)
    requires NearestLineageSource(d, requested, spec).Ok? && Current(spec) != ""
    ensures var source := NearestLineageSource(d, requested, spec).value;
      LoadMeta(d, source).Some? && ForkOwnerProblem(d, LoadMeta(d, source).value, spec).None? &&
      Problem(LoadMeta(d, source).value, spec).None? && Owner(LoadMeta(d, source).value) != "" &&
      TrimSpace(source) == source
  {
    var k := NearestSourceIs(d, requested, spec);
    var source := NearestLineageSource(d, requested, spec).value;
    var owner, ancestors := Owner(LoadMeta(d, source).value), SessionAncestors(d, spec.parentSession).value;
    AncestorsAreTrimmed(d, Current(spec), {});
    assert ancestors[k] in ancestors;
    Retrimmed(LoadMeta(d, source).value.parentSession);
    Retrimmed(spec.parentSession);
    hide NearestLineageSource, TrimSpace, LoadMeta, Problem, ListByParent, Candidate;
    WalksAgree(d, owner, spec.parentSession);
    assert IsAncestor(d, owner, Current(spec)) == IsAncestor(d, owner, spec.parentSession);
  }

  /** So a first copy can only fail on what the lineage does not decide: the source being busy,
      its transcript, or the new reference. */
  lemma FirstCopyFails(d: Disk, locked: set<string>, requested: string, spec: Spec, newRef: Option<string>)
    requires NearestLineageSource(d, requested, spec).Ok? && Current(spec) != ""
    ensures var source := NearestLineageSource(d, requested, spec).value;
      Fork(d, locked, source, spec, newRef).Err? <==>
        source in locked || source !in d.transcripts || newRef.None? || !ValidRef(newRef.value) ||
        newRef.value in locked
  {
    SourceIsAccepted(d, requested, spec);
    hide NearestLineageSource, TrimSpace, Problem, ForkOwnerProblem, Owner;
    var source := NearestLineageSource(d, requested, spec).value;
    assert ValidRef(source);
    assert source != "";
  }

  lemma DirectYields(d: Disk, locked: set<string>, ref: string, spec: Spec, newRef: Option<string>)
    requires Continue(d, locked, ref, spec, newRef).Ok? && Distance(d, ref, spec) == 0
    ensures var run, name := Continue(d, locked, ref, spec, newRef).value, TrimSpace(ref);
      run.ref == name == run.transcript && run.forkedFrom == "" && name !in locked && name in d.transcripts &&
      TrimSpace(run.meta.parentSession) == Current(spec)
  {
    Retrimmed(ref);
    hide ValidRef, FromAncestor, Problem;
    assert TrimSpace(TrimSpace(ref)) == TrimSpace(ref);
    hide TrimSpace;
  }

  lemma ForkYields(d: Disk, locked: set<string>, source: string, spec: Spec, newRef: Option<string>)
    requires Fork(d, locked, source, spec, newRef).Ok? && TrimSpace(source) == source
    ensures var run := Fork(d, locked, source, spec, newRef).value;
      newRef == Some(run.ref) && run.ref !in locked && source in d.transcripts &&
      run.transcript == run.forkedFrom == run.meta.forkedFrom == source &&
      TrimSpace(run.meta.parentSession) == Current(spec)
  {
    Retrimmed(spec.parentSession);
    hide TrimSpace, ValidRef, Problem, ForkOwnerProblem;
  }

  /** A prepared continuation belongs to the current conversation and starts from a transcript
      that was there: the run itself, its one copy here, or a new copy of the nearest source. */
  lemma ContinueYields(d: Disk, locked: set<string>, ref: string, spec: Spec, newRef: Option<string>)
    requires Continue(d, locked, ref, spec, newRef).Ok?
    ensures var run, name := Continue(d, locked, ref, spec, newRef).value, TrimSpace(ref);
      TrimSpace(run.meta.parentSession) == Current(spec) && run.ref !in locked && run.transcript in d.transcripts &&
      if Distance(d, ref, spec) == 0 then run.ref == name == run.transcript && run.forkedFrom == ""
      else
        var source, copies := NearestLineageSource(d, name, spec), CompatibleCopies(d, run.forkedFrom, spec);
        source == Ok(run.forkedFrom) && copies.Ok? &&
        if copies.value == [] then newRef == Some(run.ref) && run.transcript == run.forkedFrom == run.meta.forkedFrom
        else copies.value == [run.ref] && run.transcript == run.ref
  {
    var name := TrimSpace(ref);
    if Distance(d, ref, spec) == 0 {
      DirectYields(d, locked, ref, spec, newRef);
      hide TrimSpace, ValidRef, LoadMeta, Problem, Continue;
    } else {
      hide TrimSpace, NearestLineageSource, CompatibleCopies, Problem, Fork, ValidRef;
      assert Continue(d, locked, ref, spec, newRef) == FromAncestor(d, locked, name, spec, newRef);
      var source := NearestLineageSource(d, name, spec).value;
      var copies := CompatibleCopies(d, source, spec).value;
      if copies == [] {
        SourceIsAccepted(d, name, spec);
        ForkYields(d, locked, source, spec, newRef);
      } else {
        CopyIsNear(d, source, spec, copies[0]);
        hide LoadMeta, Continue;
        DirectYields(d, locked, copies[0], spec, newRef);
        assert copies == [copies[0]];
      }
    }
  }
}
