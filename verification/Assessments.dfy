// What the evidence assessors share: checks with a disposition, which disposition prevails over
// a list of checks, and resolvers of immutable ids.
module Assessments {
  import opened Wrappers

  datatype Disposition = Pass | Fail | Blocked | Incomplete

  datatype Check<D> = Check(checkId: string, disposition: Disposition, diagnostic: Option<D>, evidence: seq<string>)

  type Resolver = string -> bool

  predicate AllResolved(ids: seq<string>, resolver: Resolver) {
    forall i :: 0 <= i < |ids| ==> resolver(ids[i])
  }

  function NonBlank(ids: seq<string>): seq<string> {
    if ids == [] then []
    else NonBlank(ids[..|ids| - 1]) + (if ids[|ids| - 1] == "" then [] else [ids[|ids| - 1]])
  }

  lemma {:induction false} NonBlankHas(ids: seq<string>)
    ensures forall id :: id in NonBlank(ids) <==> id in ids && id != ""
  {
    if ids != [] {
      NonBlankHas(ids[..|ids| - 1]);
      assert ids == ids[..|ids| - 1] + [ids[|ids| - 1]];
    }
  }

  ghost predicate AcceptsMore(resolver: Resolver, wider: Resolver) {
    forall id :: resolver(id) ==> wider(id)
  }

  predicate HasDisposition<D>(checks: seq<Check<D>>, d: Disposition) {
    exists i :: 0 <= i < |checks| && checks[i].disposition == d
  }

  // Incomplete before blocked before failed.
  function Prevailing<D>(checks: seq<Check<D>>): Disposition {
    if HasDisposition(checks, Incomplete) then Incomplete
    else if HasDisposition(checks, Blocked) then Blocked
    else if HasDisposition(checks, Fail) then Fail
    else Pass
  }

  lemma PassPrevails<D>(checks: seq<Check<D>>)
    ensures Prevailing(checks) == Pass <==> forall i :: 0 <= i < |checks| ==> checks[i].disposition == Pass
  {
    if Prevailing(checks) == Pass {
      forall i | 0 <= i < |checks| ensures checks[i].disposition == Pass {
        assert !HasDisposition(checks, Incomplete) && !HasDisposition(checks, Blocked) && !HasDisposition(checks, Fail);
      }
    }
  }

  // When everything else passed, one check decides.
  lemma OneDecides<D>(checks: seq<Check<D>>, k: nat)
    requires k < |checks| && forall i :: 0 <= i < |checks| && i != k ==> checks[i].disposition == Pass
    ensures Prevailing(checks) == checks[k].disposition
  {
  }
}
