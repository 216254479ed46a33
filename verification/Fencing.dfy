// Fencing is total: once a higher incarnation of a source is known, the records of the
// lower ones might as well be deleted, except registrations, which are catalogue facts.

module Fencing {
  import opened Words
  import opened Evidence
  import opened State
  import opened Derive
  import opened Objects
  import opened Congruence

  function DropOwners<P, V>(s: RegistryState, t: Table<P, Owner, V>): Table<P, Owner, V>
  {
    map p | p in t :: map o | o in t[p] && !Fenced(s, o) :: t[p][o]
  }

  function DropSlots(s: RegistryState, t: Table<PortRef, SlotKey, PortValue>): Table<PortRef, SlotKey, PortValue>
  {
    map p | p in t :: map key: SlotKey | key in t[p] && !Fenced(s, key.owner) :: t[p][key]
  }

  /** The state without any subject, port, lifecycle, reincarnation or capability record of a fenced owner. */
  function DropFenced(s: RegistryState): RegistryState
  {
    s.(subjects := DropOwners(s, s.subjects),
    ports := DropSlots(s, s.ports),
    lifecycles := DropOwners(s, s.lifecycles),
    reincarnations := DropOwners(s, s.reincarnations),
    objectCapabilities := DropOwners(s, s.objectCapabilities),
    portCapabilities := DropOwners(s, s.portCapabilities))
  }

  lemma DropKeepsLive<P(!new), V>(s: RegistryState, t: Table<P, Owner, V>)
    ensures TableAgrees(Exact, s, t, DropOwners(s, t), false)
  {
    hide Fenced;
    forall p, o | !Fenced(s, o)
      ensures SameRecord(Exact, Cell(t, p, o), Cell(DropOwners(s, t), p, o))
    {
    }
  }

  lemma SameTable<P(!new), V>(s: RegistryState, t: Table<P, Owner, V>)
    ensures TableAgrees(Exact, s, t, t, true)
  {
  }

  lemma DropAgrees(s: RegistryState)
    ensures Agree(Exact, s, DropFenced(s))
  {
    hide Fenced, TableAgrees, DropOwners;
    SameTable(s, s.objects);
    SameTable(s, s.endpoints);
    DropKeepsLive(s, s.subjects);
    DropKeepsLive(s, s.lifecycles);
    DropKeepsLive(s, s.reincarnations);
    DropKeepsLive(s, s.objectCapabilities);
    DropKeepsLive(s, s.portCapabilities);
    assert SlotsAgree(Exact, s, s.ports, DropSlots(s, s.ports));
  }

  lemma MetasExact(ms: seq<Attestation>)
    ensures EraseMetas(Exact, ms) == ms
  {
  }

  lemma EdgesExact(es: seq<Edge>)
    ensures EraseEdges(Exact, es) == es
  {
    forall i | 0 <= i < |es|
      ensures EraseEdge(Exact, es[i]) == es[i]
    {
      MetasExact(es[i].claims);
      MetasExact(es[i].overridden);
    }
  }

  lemma NotesExact(ns: seq<Note>)
    ensures EraseNotes(Exact, ns) == ns
  {
    forall i | 0 <= i < |ns|
      ensures EraseNote(Exact, ns[i]) == ns[i]
    {
      MetasExact(ns[i].claims);
    }
  }

  lemma PortExact(v: PortView)
    ensures ErasePort(Exact, v) == v
  {
    EdgesExact(v.edges);
    NotesExact(v.conflicts);
    MetasExact(v.emptinessClaims);
  }

  lemma SidesExact(vs: seq<SideView>)
    ensures EraseSides(Exact, vs) == vs
  {
    forall i | 0 <= i < |vs|
      ensures EraseSide(Exact, vs[i]) == vs[i]
    {
      EdgesExact(vs[i].edges);
      NotesExact(vs[i].conflicts);
    }
  }

  lemma ObjectExact(v: Option<ObjectView>)
    ensures EraseObject(Exact, v) == v
  {
    if v.Some? {
      SidesExact(v.value.sides);
      NotesExact(v.value.conflicts);
    }
  }

  /** States that agree on every live record show the same ports and objects. */
  lemma SameGraph(s: RegistryState, t: RegistryState, l: Limits, policy: Policy, port: PortRef, x: Id)
    requires Agree(Exact, s, t)
    ensures DerivePort(t, l, policy, port) == DerivePort(s, l, policy, port)
    ensures DeriveObject(t, policy, x) == DeriveObject(s, policy, x)
  {
    hide Agree, DerivePort, DeriveObject;
    AgreePort(Exact, s, t, l, policy, port);
    PortExact(DerivePort(s, l, policy, port));
    PortExact(DerivePort(t, l, policy, port));
    AgreeObject(Exact, s, t, policy, x);
    ObjectExact(DeriveObject(s, policy, x));
    ObjectExact(DeriveObject(t, policy, x));
  }

  /** Deleting everything a fenced source asserted changes no view. */
  lemma FencingTotal(s: RegistryState, l: Limits, policy: Policy, port: PortRef, x: Id)
    ensures DerivePort(DropFenced(s), l, policy, port) == DerivePort(s, l, policy, port)
    ensures DeriveObject(DropFenced(s), policy, x) == DeriveObject(s, policy, x)
  {
    hide DerivePort, DeriveObject, DropFenced, Agree;
    DropAgrees(s);
    SameGraph(s, DropFenced(s), l, policy, port, x);
  }

  /** A registration stands however often its source has been replaced. */
  lemma RegistrationsCount(s: RegistryState, policy: Policy, x: Id, o: Owner)
    requires Has(s.objects, x, o)
    ensures ObjectExists(s, x) && RegistrationOf(s, x).Some?
    ensures |RegistrationOf(s, x).value.sides| < TWO_32 ==> DeriveObject(s, policy, x).Some?
  {
    assert o in s.objects[x].Keys;
    EmptyGroup(s.objects[x]);
    EmptyGroup(Group(s.objects, x));
  }
}
