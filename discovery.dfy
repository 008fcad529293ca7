/**
 * The proposal finder of the discovery package: exact lookup of a proposal by
 * its identity, and a filtered search over the current snapshot of proposals.
 * The snapshot that the proposal storage hands out is a parameter of each query.
 */
module Discovery {
  import opened Wrappers

  /** The identity of a proposal (its unique ID), compared only for equality. */
  type ProposalId = string

  /** An access policy that a proposal declares: its ID and the authority that issued it. */
  datatype AccessPolicy = AccessPolicy(id: string, source: string)

  /** The location of a proposal's service definition, as far as the finder reads it. */
  datatype Location = Location(nodeType: string)

  /** A service proposal. A nil policy list (None) is distinct from an empty one (Some([])). */
  datatype Proposal = Proposal(
    uniqueId: ProposalId,
    providerId: string,
    serviceType: string,
    location: Location,
    accessPolicies: Option<seq<AccessPolicy>>)

  /**
   * The location part of a filter. Only `nodeType` is compared with a proposal;
   * `rest` stands for the filter's other fields, which matter only in that they
   * make the filter differ from the zero value.
   */
  datatype LocationFilter = LocationFilter(nodeType: string, rest: string)

  datatype AccessPolicyFilter = AccessPolicyFilter(id: string, source: string)

  /** A query; each field at its zero value switches its predicate off. */
  datatype ProposalFilter = ProposalFilter(
    providerId: string,
    serviceType: string,
    location: LocationFilter,
    accessPolicy: AccessPolicyFilter)

  /** Stands for a non-nil Go `error`; the finder never returns one. */
  datatype FinderError = FinderError(message: string)

  /** The zero values the search compares a filter's location and access-policy parts with. */
  const EmptyFilterLocation: LocationFilter := LocationFilter("", "")
  const EmptyFilterAccessPolicy: AccessPolicyFilter := AccessPolicyFilter("", "")

  /** The zero value of a whole filter. */
  const EmptyFilter: ProposalFilter :=
    ProposalFilter("", "", EmptyFilterLocation, EmptyFilterAccessPolicy)

  // ---------------------------------------------------------------------------
  // Exact lookup

  /** Index `i` holds the first proposal of the snapshot whose identity is `id`. */
  ghost predicate IsFirstWithId(snapshot: seq<Proposal>, i: int, id: ProposalId) {
    && 0 <= i < |snapshot|
    && snapshot[i].uniqueId == id
    && forall j :: 0 <= j < i ==> snapshot[j].uniqueId != id
  }

  /** No two proposals of the snapshot share an identity. */
  ghost predicate DistinctIds(snapshot: seq<Proposal>) {
    forall i, j :: 0 <= i < j < |snapshot| ==> snapshot[i].uniqueId != snapshot[j].uniqueId
  }

  /**
   * Scans the snapshot in order and returns the first proposal with identity
   * `id`. A miss is no proposal and no error.
   */
  method GetProposal(snapshot: seq<Proposal>, id: ProposalId)
    returns (found: Option<Proposal>, err: Option<FinderError>)
    ensures err == None
    ensures found.Some? ==>
      exists i :: IsFirstWithId(snapshot, i, id) && snapshot[i] == found.value
    ensures found.None? <==> forall i :: 0 <= i < |snapshot| ==> snapshot[i].uniqueId != id
    ensures DistinctIds(snapshot) ==>
      forall k :: 0 <= k < |snapshot| && snapshot[k].uniqueId == id ==> found == Some(snapshot[k])
  {
    for i := 0 to |snapshot|
      invariant forall j :: 0 <= j < i ==> snapshot[j].uniqueId != id
    {
      var proposal := snapshot[i];
      if proposal.uniqueId == id {
        assert IsFirstWithId(snapshot, i, id);
        return Some(proposal), None;
      }
    }
    return None, None;
  }

  // ---------------------------------------------------------------------------
  // Predicates

  /** The location predicate: a mismatching non-empty node type rejects. */
  function FilterByLocation(proposal: Proposal, filter: LocationFilter): (pass: bool)
    ensures pass <==> filter.nodeType == "" || filter.nodeType == proposal.location.nodeType
  {
    if filter.nodeType != "" && filter.nodeType != proposal.location.nodeType then false else true
  }

  /** One policy satisfies the filter: the filter names its ID and, if it names a source, its source. */
  predicate PolicyHit(policy: AccessPolicy, filter: AccessPolicyFilter) {
    && filter.id != ""
    && filter.id == policy.id
    && (filter.source == "" || filter.source == policy.source)
  }

  /** What the access-policy predicate computes, stated without the carried flag. */
  predicate AccessPolicyAccepts(proposal: Proposal, filter: AccessPolicyFilter) {
    match proposal.accessPolicies
    case None => false
    case Some(policies) => exists i :: 0 <= i < |policies| && PolicyHit(policies[i], filter)
  }

  /**
   * The access-policy predicate. A flag starts false; for each policy it is reset
   * from the ID comparison when the filter names an ID, then ANDed with the source
   * comparison when the filter names a source; the scan stops once it is true.
   */
  method FilterByAccessPolicy(proposal: Proposal, filter: AccessPolicyFilter) returns (matched: bool)
    ensures matched == AccessPolicyAccepts(proposal, filter)
    ensures proposal.accessPolicies == None ==> !matched
    ensures proposal.accessPolicies == Some([]) ==> !matched
    ensures filter.id == "" ==> !matched
    ensures matched ==>
      proposal.accessPolicies.Some? &&
      exists policy :: policy in proposal.accessPolicies.value && PolicyHit(policy, filter)
  {
    if proposal.accessPolicies == None {
      return false;
    }
    var policies := proposal.accessPolicies.value;
    matched := false;
    var i := 0;
    while i < |policies|
      invariant 0 <= i <= |policies|
      invariant !matched
      invariant forall j :: 0 <= j < i ==> !PolicyHit(policies[j], filter)
    {
      var policy := policies[i];
      if filter.id != "" {
        matched := filter.id == policy.id;
      }
      if filter.source != "" {
        matched := matched && filter.source == policy.source;
      }
      if matched == true {
        assert PolicyHit(policies[i], filter);
        break;
      }
      i := i + 1;
    }
  }

  /** A proposal passes every enabled predicate of the filter. */
  predicate Passes(proposal: Proposal, filter: ProposalFilter) {
    && (filter.providerId == "" || filter.providerId == proposal.providerId)
    && (filter.serviceType == "" || filter.serviceType == proposal.serviceType)
    && (filter.location == EmptyFilterLocation || FilterByLocation(proposal, filter.location))
    && (filter.accessPolicy == EmptyFilterAccessPolicy || AccessPolicyAccepts(proposal, filter.accessPolicy))
  }

  // ---------------------------------------------------------------------------
  // Filtered search

  /** The proposals of the snapshot that pass the filter, in snapshot order. */
  function Kept(snapshot: seq<Proposal>, filter: ProposalFilter): seq<Proposal> {
    if snapshot == [] then []
    else (if Passes(snapshot[0], filter) then [snapshot[0]] else []) + Kept(snapshot[1..], filter)
  }

  /** `xs` is obtained from `ys` by deleting elements, keeping the order of the rest. */
  ghost predicate IsSubsequence<T>(xs: seq<T>, ys: seq<T>)
    decreases |ys|
  {
    if xs == [] then true
    else if ys == [] then false
    else (xs[0] == ys[0] && IsSubsequence(xs[1..], ys[1..])) || IsSubsequence(xs, ys[1..])
  }

  /** Filtering a snapshot one proposal longer appends that proposal iff it passes. */
  lemma {:induction false} KeptAppend(snapshot: seq<Proposal>, proposal: Proposal, filter: ProposalFilter)
    ensures Kept(snapshot + [proposal], filter)
         == Kept(snapshot, filter) + (if Passes(proposal, filter) then [proposal] else [])
  {
    if snapshot == [] {
      assert [] + [proposal] == [proposal];
      assert [proposal][1..] == [];
    } else {
      assert (snapshot + [proposal])[1..] == snapshot[1..] + [proposal];
      KeptAppend(snapshot[1..], proposal, filter);
    }
  }

  /**
   * Scans the snapshot in order and appends each proposal that passes the
   * provider, service-type, location and access-policy predicates, each checked
   * only when its filter field is not the zero value. The error is always nil.
   */
  method FindProposals(snapshot: seq<Proposal>, filter: ProposalFilter)
    returns (filtered: seq<Proposal>, err: Option<FinderError>)
    ensures err == None
    ensures filtered == Kept(snapshot, filter)
  {
    filtered := [];
    for i := 0 to |snapshot|
      invariant filtered == Kept(snapshot[..i], filter)
    {
      var proposal := snapshot[i];
      assert snapshot[..i + 1] == snapshot[..i] + [proposal];
      KeptAppend(snapshot[..i], proposal, filter);
      if filter.providerId != "" && filter.providerId != proposal.providerId {
        continue;
      }
      if filter.serviceType != "" && filter.serviceType != proposal.serviceType {
        continue;
      }
      if filter.location != EmptyFilterLocation && !FilterByLocation(proposal, filter.location) {
        continue;
      }
      if filter.accessPolicy != EmptyFilterAccessPolicy {
        var accepted := FilterByAccessPolicy(proposal, filter.accessPolicy);
        if !accepted {
          continue;
        }
      }
      filtered := filtered + [proposal];
    }
    assert snapshot[..|snapshot|] == snapshot;
    err := None;
  }

  // ---------------------------------------------------------------------------
  // Properties of the filtered search

  /** The result keeps snapshot order: it is a subsequence of the snapshot. */
  lemma {:induction false} KeptIsSubsequence(snapshot: seq<Proposal>, filter: ProposalFilter)
    ensures IsSubsequence(Kept(snapshot, filter), snapshot)
  {
    if snapshot != [] {
      KeptIsSubsequence(snapshot[1..], filter);
      var rest := Kept(snapshot[1..], filter);
      if Passes(snapshot[0], filter) {
        assert ([snapshot[0]] + rest)[1..] == rest;
      } else {
        assert Kept(snapshot, filter) == rest;
      }
    }
  }

  /** A proposal is in the result iff it is in the snapshot and passes the filter. */
  lemma {:induction false} KeptMembership(snapshot: seq<Proposal>, filter: ProposalFilter, proposal: Proposal)
    ensures proposal in Kept(snapshot, filter) <==> proposal in snapshot && Passes(proposal, filter)
  {
    if snapshot != [] {
      KeptMembership(snapshot[1..], filter, proposal);
      assert snapshot == [snapshot[0]] + snapshot[1..];
    }
  }

  /** With every filter field at its zero value the result is the whole snapshot. */
  lemma {:induction false} KeptAllZero(snapshot: seq<Proposal>)
    ensures Kept(snapshot, EmptyFilter) == snapshot
  {
    if snapshot != [] {
      KeptAllZero(snapshot[1..]);
      assert snapshot == [snapshot[0]] + snapshot[1..];
    }
  }

  /** A filter on the provider alone keeps exactly that provider's proposals. */
  lemma ProviderOnlyFilter(snapshot: seq<Proposal>, provider: string, proposal: Proposal)
    ensures proposal in Kept(snapshot, ProposalFilter(provider, "", EmptyFilterLocation, EmptyFilterAccessPolicy))
        <==> proposal in snapshot && (provider == "" || proposal.providerId == provider)
  {
    KeptMembership(snapshot, ProposalFilter(provider, "", EmptyFilterLocation, EmptyFilterAccessPolicy), proposal);
  }

  /** A proposal without a policy list is excluded whenever an access-policy filter is given. */
  lemma NilPoliciesExcluded(snapshot: seq<Proposal>, filter: ProposalFilter, proposal: Proposal)
    requires proposal.accessPolicies == None
    requires filter.accessPolicy.id != "" || filter.accessPolicy.source != ""
    ensures proposal !in Kept(snapshot, filter)
  {
    KeptMembership(snapshot, filter, proposal);
  }

  /**
   * An access-policy filter that names a source but no ID excludes every
   * proposal, since the flag starts false and is only ever ANDed.
   */
  lemma {:induction false} SourceOnlyPolicyFilterKeepsNothing(snapshot: seq<Proposal>, filter: ProposalFilter)
    requires filter.accessPolicy.id == "" && filter.accessPolicy.source != ""
    ensures Kept(snapshot, filter) == []
  {
    if snapshot != [] {
      SourceOnlyPolicyFilterKeepsNothing(snapshot[1..], filter);
    }
  }

  /**
   * A location filter that differs from the zero value but leaves the node type
   * empty is enabled and passes every proposal: the result is the same as with
   * the location filter switched off.
   */
  lemma {:induction false} EmptyNodeTypePassesAll(snapshot: seq<Proposal>, filter: ProposalFilter, location: LocationFilter)
    requires location.nodeType == ""
    ensures Kept(snapshot, filter.(location := location)) == Kept(snapshot, filter.(location := EmptyFilterLocation))
  {
    if snapshot != [] {
      EmptyNodeTypePassesAll(snapshot[1..], filter, location);
    }
  }

  /**
   * The two zero-value constants have every field empty, and a filter whose
   * location and access-policy parts are those constants is decided by the
   * provider and service-type predicates alone.
   */
  lemma ZeroFiltersSwitchOff(proposal: Proposal, filter: ProposalFilter)
    ensures EmptyFilterLocation.nodeType == "" && EmptyFilterLocation.rest == ""
    ensures EmptyFilterAccessPolicy.id == "" && EmptyFilterAccessPolicy.source == ""
    ensures Passes(proposal, filter.(location := EmptyFilterLocation, accessPolicy := EmptyFilterAccessPolicy))
        <==> ((filter.providerId == "" || filter.providerId == proposal.providerId)
              && (filter.serviceType == "" || filter.serviceType == proposal.serviceType))
  {
  }

  /**
   * The two-policy case in which the flag could carry: policies [p1/x, p2/y]
   * and filter p1/y. The first policy matches the ID but not the source, the
   * second resets the flag from its ID, so the proposal is rejected.
   */
  lemma TwoPolicyCarryCase(proposal: Proposal)
    requires proposal.accessPolicies == Some([AccessPolicy("p1", "x"), AccessPolicy("p2", "y")])
    ensures !AccessPolicyAccepts(proposal, AccessPolicyFilter("p1", "y"))
    ensures AccessPolicyAccepts(proposal, AccessPolicyFilter("p1", ""))
    ensures AccessPolicyAccepts(proposal, AccessPolicyFilter("p2", "y"))
  {
    var policies := proposal.accessPolicies.value;
    assert PolicyHit(policies[0], AccessPolicyFilter("p1", ""));
    assert PolicyHit(policies[1], AccessPolicyFilter("p2", "y"));
  }
}
