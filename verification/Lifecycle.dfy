// The lifecycle verdict on an object: which action the best authority supports at the
// object's current incarnation, and when the answer is a conflict.

module Lifecycle {
  import opened Words
  import opened Evidence
  import opened Ordering
  import opened State

  datatype Verdict = Verdict(action: LifecycleAction, conflicting: bool)

  /** Owners whose lifecycle record is live and made against the current incarnation. */
  ghost function LifecycleOwners(s: RegistryState, x: Id): (r: set<Owner>)
    ensures r <= Group(s.lifecycles, x).Keys
  {
    var group := Group(s.lifecycles, x);
    set o | o in group && !Fenced(s, o) && group[o].value.objectIncarnation == IncarnationOf(s, x)
  }

  /** Owners whose live reincarnation record established the current incarnation. */
  ghost function ReincarnationOwners(s: RegistryState, x: Id): (r: set<Owner>)
    ensures r <= Group(s.reincarnations, x).Keys
  {
    var group := Group(s.reincarnations, x);
    set o | o in group && !Fenced(s, o) && group[o].value.target == IncarnationOf(s, x)
  }

  ghost function AuthoritiesOf<V>(group: map<Owner, Folded<V>>, owners: set<Owner>): set<Authority>
    requires owners <= group.Keys
  {
    set o | o in owners :: group[o].meta.authority
  }

  ghost function CandidateAuthorities(s: RegistryState, x: Id): set<Authority>
  {
    AuthoritiesOf(Group(s.lifecycles, x), LifecycleOwners(s, x)) +
    AuthoritiesOf(Group(s.reincarnations, x), ReincarnationOwners(s, x))
  }

  ghost function BestLifecycleAuthority(s: RegistryState, x: Id): Authority
    requires CandidateAuthorities(s, x) != {}
  {
    Greatest(CandidateAuthorities(s, x), AuthorityRank)
  }

  /** The best authority asserts the action in a lifecycle record. */
  ghost predicate Asserted(s: RegistryState, x: Id, action: LifecycleAction)
    requires CandidateAuthorities(s, x) != {}
  {
    exists o :: o in LifecycleOwners(s, x)
      && s.lifecycles[x][o].meta.authority == BestLifecycleAuthority(s, x)
      && s.lifecycles[x][o].value.action == action
  }

  /** The best authority reincarnated the object to its current incarnation. */
  ghost predicate Restored(s: RegistryState, x: Id)
    requires CandidateAuthorities(s, x) != {}
  {
    exists o :: o in ReincarnationOwners(s, x)
      && s.reincarnations[x][o].meta.authority == BestLifecycleAuthority(s, x)
  }

  function Combine(present: bool, quarantined: bool, removed: bool, retired: bool, restored: bool): Verdict
  {
    var distinct := (if present then 1 else 0) + (if retired then 1 else 0) +
                    (if removed then 1 else 0) + (if quarantined then 1 else 0);
    if distinct <= 1 then
      Verdict(if retired then Retired else if removed then Removed else if quarantined then Quarantined
        else Present, false)
    else if retired && present && restored && distinct == 2 then Verdict(Present, false)
    else if retired then Verdict(Retired, false)
    else if removed && present && !quarantined && distinct == 2 then Verdict(Removed, false)
    else Verdict(Present, true)
  }

  ghost function LifecycleOf(s: RegistryState, x: Id): Verdict
  {
    if CandidateAuthorities(s, x) == {} then Verdict(Present, false)
    else
      Combine(Asserted(s, x, Present) || Restored(s, x), Asserted(s, x, Quarantined),
              Asserted(s, x, Removed), Asserted(s, x, Retired), Restored(s, x))
  }

  /** Quarantined, removed or retired: out of the authoritative graph. */
  ghost predicate Excluded(s: RegistryState, x: Id)
  {
    LifecycleOf(s, x).action != Present
  }
}
