// What a snapshot shows: every registered object and endpoint and every port with a record, each
// with its view, and how many claims are fenced; so equal snapshots show equal views.

module Picture {
  import opened Words
  import opened Evidence
  import opened Ordering
  import opened State
  import opened Lifecycle
  import opened Ingest
  import opened Keys
  import opened Census
  import opened Derive
  import opened Objects
  import opened Snapshot
  import opened Invariants
  import opened Placement
  import opened Bounds
  import opened Reachable

  // ---- Entries tell their views ----

  predicate ClaimTold(c: SnapClaim, m: Attestation)
  {
    && c.owner == m.owner && c.generation == m.generation && c.evidence == m.evidence && c.observedAt == m.observedAt
    && c.provenance == m.provenance && c.authority == m.authority
  }

  predicate ClaimsTold(cs: seq<SnapClaim>, ms: seq<Attestation>)
  {
    |cs| == |ms| && forall i :: 0 <= i < |cs| ==> ClaimTold(cs[i], ms[i])
  }

  predicate EdgeTold(t: SnapEdge, e: Edge)
  {
    && t.subject == e.subject && t.port == e.port && t.slot == e.slot && t.incarnation == e.incarnation
    && t.authority == e.authority && t.connectorCompatible == e.connectorCompatible
    && t.mediaCompatible == e.mediaCompatible && t.conflicting == e.conflicting && ClaimsTold(t.claims, e.claims)
  }

  predicate NoteTold(t: SnapNote, n: Note)
  {
    t.reason == n.reason && t.subject == n.subject && t.port == n.port && ClaimsTold(t.claims, n.claims)
  }

  predicate PortTold(t: SnapPort, v: PortView)
  {
    && t.port == v.port && t.state == v.state && t.capability == v.capability
    && |t.attachments| == |v.edges| && (forall i :: 0 <= i < |v.edges| ==> EdgeTold(t.attachments[i], v.edges[i]))
    && |t.conflicts| == |v.conflicts|
    && (forall i :: 0 <= i < |v.conflicts| ==> NoteTold(t.conflicts[i], v.conflicts[i]))
  }

  /** The attachment is that of an edge of one of the sides. */
  predicate AttachmentTold(t: SnapEdge, sides: seq<SideView>)
  {
    exists i, j :: 0 <= i < |sides| && 0 <= j < |sides[i].edges| && EdgeTold(t, sides[i].edges[j])
  }

  function EdgeCount(sides: seq<SideView>): nat
  {
    if sides == [] then 0 else |sides[0].edges| + EdgeCount(sides[1..])
  }

  ghost predicate ObjectTold(t: SnapObject, v: ObjectView)
  {
    && t.id == v.id && t.kind == v.kind && t.physicalLabel == v.physicalLabel && t.serial == v.serial
    && t.location == v.location && t.incarnation == v.incarnation && t.lifecycle == v.lifecycle
    && t.capability == v.capability && |t.sides| == |v.sides|
    && (forall i :: 0 <= i < |v.sides| ==> t.sides[i] == v.sides[i].descriptor)
    && |t.attachments| == EdgeCount(v.sides) && NonDescending(t.attachments, AttachmentRank)
    && (forall a :: a in t.attachments ==> AttachmentTold(a, v.sides))
    && EveryEdgeTold(t.attachments, v.sides)
    && t.conflicts == |v.conflicts|
  }

  lemma EdgeSnapped(e: Edge)
    ensures EdgeTold(SnapEdgeOf(e), e)
  {
  }

  lemma PortSnapped(v: PortView)
    ensures PortTold(SnapPortOf(v), v)
  {
  }

  lemma {:induction false} AttachmentsTold(sides: seq<SideView>)
    ensures |Attachments(sides)| == EdgeCount(sides)
    ensures forall a :: a in Attachments(sides) ==> AttachmentTold(a, sides)
  {
    hide EdgeTold, SnapEdgeOf;
    if sides != [] {
      var rest, first := sides[1..], SnapEdgesOf(sides[0].edges);
      AttachmentsTold(rest);
      forall a | a in Attachments(sides)
        ensures AttachmentTold(a, sides)
      {
        if a in first {
          var j :| 0 <= j < |first| && first[j] == a;
          EdgeSnapped(sides[0].edges[j]);
        } else {
          assert a in Attachments(rest);
          var i, j :| 0 <= i < |rest| && 0 <= j < |rest[i].edges| && EdgeTold(a, rest[i].edges[j]);
          assert sides[i + 1] == rest[i];
        }
      }
    }
  }

  lemma {:induction false} EdgeListed(sides: seq<SideView>, i: nat, j: nat)
    requires i < |sides| && j < |sides[i].edges|
    ensures SnapEdgeOf(sides[i].edges[j]) in Attachments(sides)
    decreases i
  {
    hide SnapEdgeOf;
    var first := SnapEdgesOf(sides[0].edges);
    if i == 0 {
      assert first[j] in first;
    } else {
      assert sides[1..][i - 1] == sides[i];
      EdgeListed(sides[1..], i - 1, j);
    }
  }

  ghost predicate EveryEdgeTold(attachments: seq<SnapEdge>, sides: seq<SideView>)
  {
    forall i, j :: 0 <= i < |sides| && 0 <= j < |sides[i].edges| ==>
      exists a :: a in attachments && EdgeTold(a, sides[i].edges[j])
  }

  lemma AttachmentsSorted(sides: seq<SideView>)
    ensures var r := SortBy(Attachments(sides), AttachmentRank);
            && |r| == EdgeCount(sides) && NonDescending(r, AttachmentRank)
            && (forall a :: a in r ==> AttachmentTold(a, sides)) && EveryEdgeTold(r, sides)
  {
    hide EdgeTold, SnapEdgeOf, AttachmentTold, AttachmentRank;
    AttachmentsTold(sides);
    var all := Attachments(sides);
    SortBySorts(all, AttachmentRank);
    SortByMembers(all, AttachmentRank);
    hide SortBy, Attachments;
    forall i, j | 0 <= i < |sides| && 0 <= j < |sides[i].edges|
      ensures exists a :: a in SortBy(all, AttachmentRank) && EdgeTold(a, sides[i].edges[j])
    {
      EdgeSnapped(sides[i].edges[j]);
      EdgeListed(sides, i, j);
      assert SnapEdgeOf(sides[i].edges[j]) in SortBy(all, AttachmentRank);
    }
    var r := SortBy(all, AttachmentRank);
    assert forall a :: a in r ==> AttachmentTold(a, sides);
  }

  lemma ObjectSnapped(v: ObjectView)
    ensures SnapObjectOf(Some(v)).Some? && ObjectTold(SnapObjectOf(Some(v)).value, v)
  {
    hide EveryEdgeTold, AttachmentTold, NonDescending, SortBy, Attachments, EdgeCount;
    AttachmentsSorted(v.sides);
    var t := SnapObjectOf(Some(v)).value;
    assert t.attachments == SortBy(Attachments(v.sides), AttachmentRank);
    assert forall i :: 0 <= i < |v.sides| ==> t.sides[i] == v.sides[i].descriptor;
  }

  // ---- The lists are complete, in order, and each entry is that of its identity ----

  /** What the snapshot is made of. */
  lemma Parts(s: RegistryState, l: Limits)
    ensures var snap := BuildSnapshot(s, l);
            && snap.objects == SnapObjects(s, Sorted(s.objects.Keys, IdRank))
            && snap.endpoints == SnapEndpoints(s, Sorted(s.endpoints.Keys, IdRank))
            && snap.ports == SnapPorts(s, l, Sorted(s.ports.Keys, PortRank))
            && snap.fencedObjects == SnapFencedObjects(s, Sorted(FencedObjects(s), IdRank))
  {
    hide SnapObjects, SnapEndpoints, SnapPorts, SnapFencedObjects, SnapSessions, Sorted, Total, FencedObjects, KeysOf;
  }

  /** Every port that has a record is listed once, in order, with its own view. */
  lemma PortsShown(s: RegistryState, l: Limits)
    ensures var listed, ids := BuildSnapshot(s, l).ports, Sorted(s.ports.Keys, PortRank);
            && |listed| == |ids|
            && forall i :: 0 <= i < |ids| ==>
                 listed[i].port == ids[i] && PortTold(listed[i], DerivePort(s, l, IncludeAll, ids[i]))
  {
    hide DerivePort, PortTold, SnapPortOf, Sorted, BuildSnapshot;
    Parts(s, l);
    var ids := Sorted(s.ports.Keys, PortRank);
    forall i | 0 <= i < |ids|
      ensures var entry := SnapPorts(s, l, ids)[i];
              entry.port == ids[i] && PortTold(entry, DerivePort(s, l, IncludeAll, ids[i]))
    {
      PortSnapped(DerivePort(s, l, IncludeAll, ids[i]));
      NamedPort(s, l, ids[i]);
    }
  }

  lemma NamedPort(s: RegistryState, l: Limits, p: PortRef)
    ensures SnapPortOf(DerivePort(s, l, IncludeAll, p)).port == p
  {
    hide StateOf, CapabilityOf, EdgesOf, EdgeNotes, ConflictNotes, Cite, SlotValidation, TopSlots, SlotAuthorities;
  }

  /** The entry is that of the object, with its own view. */
  ghost predicate ObjectListed(s: RegistryState, x: Id, entry: Option<SnapObject>)
  {
    && entry.Some? && entry.value.id == x && DeriveObject(s, IncludeAll, x).Some?
    && ObjectTold(entry.value, DeriveObject(s, IncludeAll, x).value)
  }

  lemma OneListed(s: RegistryState, l: Limits, h: nat, x: Id)
    requires Good(s, l, h) && x in s.objects
    ensures ObjectListed(s, x, SnapObjectOf(DeriveObject(s, IncludeAll, x)))
  {
    hide DeriveObject, ObjectTold, SnapObjectOf, Good;
    RegisteredView(s, l, h, x);
    var v := DeriveObject(s, IncludeAll, x).value;
    ObjectSnapped(v);
    ToldId(SnapObjectOf(Some(v)).value, v);
  }

  /** Every registered object is listed once, in order, with its own view. */
  lemma ObjectsShown(s: RegistryState, l: Limits, h: nat)
    requires Good(s, l, h)
    ensures var listed, ids := BuildSnapshot(s, l).objects, Sorted(s.objects.Keys, IdRank);
            |listed| == |ids| && forall i :: 0 <= i < |ids| ==> ObjectListed(s, ids[i], listed[i])
  {
    hide DeriveObject, ObjectListed, SnapObjectOf, Sorted, Good, BuildSnapshot, SnapPorts, SnapEndpoints,
         SnapFencedObjects, FencedObjects;
    Parts(s, l);
    var ids := Sorted(s.objects.Keys, IdRank);
    forall i | 0 <= i < |ids|
      ensures ObjectListed(s, ids[i], SnapObjects(s, ids)[i])
    {
      assert ids[i] in ids;
      OneListed(s, l, h, ids[i]);
    }
  }

  lemma ToldId(t: SnapObject, v: ObjectView)
    requires ObjectTold(t, v)
    ensures t.id == v.id
  {
  }

  /** A registered object of a reachable state has a view, of its own identity. */
  lemma RegisteredView(s: RegistryState, l: Limits, h: nat, x: Id)
    requires Good(s, l, h) && x in s.objects
    ensures DeriveObject(s, IncludeAll, x).Some? && DeriveObject(s, IncludeAll, x).value.id == x
  {
    hide LifecycleOf, IncarnationOf, SideViews, CapabilityNotes, LifecycleNotes, SidesValidation, SerialOf,
         ObjectCapabilityOf, SomeSide, CatalogueOk, RecordsOk, PlacementOk, RingsOk, SizesOk;
    assert s.objects[x] != map[];
    var o := WinningOwner(s.objects[x], s.objects[x].Keys);
    assert At(s, ObjectKey(x, o)).Some?;
    assert ClaimOk(At(s, ObjectKey(x, o)).value.value, l);
  }

  /** Every registered endpoint is listed once, in order, with the descriptor that prevails. */
  lemma EndpointsShown(s: RegistryState, l: Limits, h: nat)
    requires Good(s, l, h)
    ensures var listed, ids := BuildSnapshot(s, l).endpoints, Sorted(s.endpoints.Keys, IdRank);
            && |listed| == |ids|
            && forall i :: 0 <= i < |ids| ==>
                 EndpointOf(s, ids[i]).Some? && listed[i] == Some(EndpointOf(s, ids[i]).value.(id := ids[i]))
  {
    hide Sorted, Good, BuildSnapshot, EndpointOf, SnapObjects, SnapPorts, SnapFencedObjects, FencedObjects;
    Parts(s, l);
    var ids := Sorted(s.endpoints.Keys, IdRank);
    forall i | 0 <= i < |ids|
      ensures EndpointOf(s, ids[i]).Some?
    {
      assert ids[i] in ids;
      HeldEndpoint(s, l, h, ids[i]);
    }
  }

  lemma HeldEndpoint(s: RegistryState, l: Limits, h: nat, x: Id)
    requires Good(s, l, h) && x in s.endpoints
    ensures EndpointOf(s, x).Some?
  {
    hide CatalogueOk, RecordsOk, PlacementOk, RingsOk, SizesOk, ValuesOk, WinningOwner;
  }

  /** Every fenced session is listed once, in order, with who fenced it and how many claims it has. */
  lemma SessionsShown(s: RegistryState, l: Limits)
    ensures var listed, owners := BuildSnapshot(s, l).sessions, Sorted(FencedSessions(s), OwnerRank);
            && |listed| == |owners|
            && forall i :: 0 <= i < |owners| ==>
                 && owners[i] in s.sessions && Fenced(s, owners[i]) && listed[i].owner == owners[i]
                 && listed[i].fencedBy == s.sources[owners[i].source].currentIncarnation
                 && listed[i].claims == SessionClaims(s, owners[i])
  {
    hide SessionClaims, Sorted, Total, SnapObjects, SnapEndpoints, SnapPorts, SnapFencedObjects, KeysOf, FencedObjects;
    var owners := Sorted(FencedSessions(s), OwnerRank);
    assert forall i :: 0 <= i < |owners| ==> owners[i] in owners;
  }

  /** Every object with claims against another incarnation is listed once, in order, with its count. */
  lemma FencedShown(s: RegistryState, l: Limits)
    ensures var listed, ids := BuildSnapshot(s, l).fencedObjects, Sorted(FencedObjects(s), IdRank);
            && |listed| == |ids|
            && forall i :: 0 <= i < |ids| ==>
                 && listed[i].target == ids[i] && listed[i].incarnation == IncarnationOf(s, ids[i])
                 && listed[i].claims == ObjectClaims(s, ids[i]) != 0
  {
    hide ObjectClaims, Sorted, IncarnationOf, BoundObjects, BuildSnapshot;
    Parts(s, l);
    var ids := Sorted(FencedObjects(s), IdRank);
    assert forall i :: 0 <= i < |ids| ==> ids[i] in ids;
  }

  // ---- Equal snapshots show the same ----

  lemma SortedSame<K(!new)>(a: set<K>, b: set<K>, rank: K -> int)
    requires Sorted(a, rank) == Sorted(b, rank)
    ensures a == b
  {
    hide Sorted;
    forall k
      ensures k in a <==> k in b
    {
      assert k in a <==> k in Sorted(a, rank);
      assert k in b <==> k in Sorted(b, rank);
    }
  }

  lemma SamePortEntry(s: RegistryState, t: RegistryState, l: Limits, ids: seq<PortRef>, i: nat)
    requires i < |ids| && SnapPorts(s, l, ids) == SnapPorts(t, l, ids)
    ensures SnapPortOf(DerivePort(s, l, IncludeAll, ids[i])) == SnapPortOf(DerivePort(t, l, IncludeAll, ids[i]))
  {
    hide DerivePort, SnapPortOf;
    assert SnapPorts(s, l, ids)[i] == SnapPorts(t, l, ids)[i];
  }

  lemma SameObjectEntry(s: RegistryState, t: RegistryState, ids: seq<Id>, i: nat)
    requires i < |ids| && SnapObjects(s, ids) == SnapObjects(t, ids)
    ensures SnapObjectOf(DeriveObject(s, IncludeAll, ids[i])) == SnapObjectOf(DeriveObject(t, IncludeAll, ids[i]))
  {
    hide DeriveObject, SnapObjectOf;
    assert SnapObjects(s, ids)[i] == SnapObjects(t, ids)[i];
  }

  lemma SamePortIds(s: RegistryState, t: RegistryState, l: Limits)
    requires BuildSnapshot(s, l).ports == BuildSnapshot(t, l).ports
    ensures s.ports.Keys == t.ports.Keys
  {
    hide DerivePort, PortTold, Sorted, BuildSnapshot;
    PortsShown(s, l);
    PortsShown(t, l);
    assert Sorted(s.ports.Keys, PortRank) == Sorted(t.ports.Keys, PortRank);
    SortedSame(s.ports.Keys, t.ports.Keys, PortRank);
  }

  lemma SamePorts(s: RegistryState, t: RegistryState, l: Limits)
    requires BuildSnapshot(s, l).ports == BuildSnapshot(t, l).ports
    ensures s.ports.Keys == t.ports.Keys
    ensures forall p :: p in s.ports ==>
              SnapPortOf(DerivePort(s, l, IncludeAll, p)) == SnapPortOf(DerivePort(t, l, IncludeAll, p))
  {
    hide DerivePort, SnapPortOf, Sorted, BuildSnapshot, SnapPorts, SnapObjects, SnapEndpoints, SnapFencedObjects,
         FencedObjects;
    Parts(s, l);
    Parts(t, l);
    SamePortIds(s, t, l);
    var ids := Sorted(s.ports.Keys, PortRank);
    forall p | p in s.ports
      ensures SnapPortOf(DerivePort(s, l, IncludeAll, p)) == SnapPortOf(DerivePort(t, l, IncludeAll, p))
    {
      assert p in ids;
      var i :| 0 <= i < |ids| && ids[i] == p;
      SamePortEntry(s, t, l, ids, i);
    }
  }

  lemma SameObjectIds(s: RegistryState, t: RegistryState, l: Limits, h: nat)
    requires Good(s, l, h) && Good(t, l, h) && BuildSnapshot(s, l).objects == BuildSnapshot(t, l).objects
    ensures s.objects.Keys == t.objects.Keys
  {
    hide DeriveObject, ObjectTold, Sorted, Good, BuildSnapshot;
    ObjectsShown(s, l, h);
    ObjectsShown(t, l, h);
    var a, b := Sorted(s.objects.Keys, IdRank), Sorted(t.objects.Keys, IdRank);
    forall i | 0 <= i < |a|
      ensures a[i] == b[i]
    {
      assert ObjectListed(s, a[i], BuildSnapshot(s, l).objects[i]);
      assert ObjectListed(t, b[i], BuildSnapshot(s, l).objects[i]);
    }
    assert Sorted(s.objects.Keys, IdRank) == Sorted(t.objects.Keys, IdRank);
    SortedSame(s.objects.Keys, t.objects.Keys, IdRank);
  }

  lemma SameObjects(s: RegistryState, t: RegistryState, l: Limits, h: nat)
    requires Good(s, l, h) && Good(t, l, h) && BuildSnapshot(s, l).objects == BuildSnapshot(t, l).objects
    ensures s.objects.Keys == t.objects.Keys
    ensures forall x :: x in s.objects ==>
              SnapObjectOf(DeriveObject(s, IncludeAll, x)) == SnapObjectOf(DeriveObject(t, IncludeAll, x))
  {
    hide DeriveObject, SnapObjectOf, Sorted, Good, BuildSnapshot, SnapPorts, SnapObjects, SnapEndpoints,
         SnapFencedObjects, FencedObjects;
    Parts(s, l);
    Parts(t, l);
    SameObjectIds(s, t, l, h);
    var ids := Sorted(s.objects.Keys, IdRank);
    forall x | x in s.objects
      ensures SnapObjectOf(DeriveObject(s, IncludeAll, x)) == SnapObjectOf(DeriveObject(t, IncludeAll, x))
    {
      assert x in ids;
      var i :| 0 <= i < |ids| && ids[i] == x;
      SameObjectEntry(s, t, ids, i);
    }
  }

  lemma SameEndpoints(s: RegistryState, t: RegistryState, l: Limits, h: nat)
    requires Good(s, l, h) && Good(t, l, h) && BuildSnapshot(s, l).endpoints == BuildSnapshot(t, l).endpoints
    ensures s.endpoints.Keys == t.endpoints.Keys
    ensures forall x :: x in s.endpoints ==>
              EndpointOf(s, x).Some? && EndpointOf(t, x).Some?
              && EndpointOf(s, x).value.(id := x) == EndpointOf(t, x).value.(id := x)
  {
    hide EndpointOf, Sorted, Good, BuildSnapshot;
    var a, b := Sorted(s.endpoints.Keys, IdRank), Sorted(t.endpoints.Keys, IdRank);
    EndpointsShown(s, l, h);
    EndpointsShown(t, l, h);
    forall i | 0 <= i < |a|
      ensures a[i] == b[i]
    {
      assert BuildSnapshot(s, l).endpoints[i].value.id == a[i] && BuildSnapshot(t, l).endpoints[i].value.id == b[i];
    }
    assert a == b;
    SortedSame(s.endpoints.Keys, t.endpoints.Keys, IdRank);
    forall x | x in s.endpoints
      ensures EndpointOf(s, x).Some? && EndpointOf(t, x).Some?
              && EndpointOf(s, x).value.(id := x) == EndpointOf(t, x).value.(id := x)
    {
      assert x in a;
      var i :| 0 <= i < |a| && a[i] == x;
      assert BuildSnapshot(s, l).endpoints[i] == BuildSnapshot(t, l).endpoints[i];
    }
  }

  lemma SameFenced(s: RegistryState, t: RegistryState, l: Limits)
    requires BuildSnapshot(s, l) == BuildSnapshot(t, l)
    ensures FencedSessions(s) == FencedSessions(t) && FencedObjects(s) == FencedObjects(t)
  {
    hide BuildSnapshot, FencedSessions, FencedObjects, Sorted, IncarnationOf, ObjectClaims, SessionClaims;
    SessionsShown(s, l);
    SessionsShown(t, l);
    FencedShown(s, l);
    FencedShown(t, l);
    assert Sorted(FencedSessions(s), OwnerRank) == Sorted(FencedSessions(t), OwnerRank);
    SortedSame(FencedSessions(s), FencedSessions(t), OwnerRank);
    assert Sorted(FencedObjects(s), IdRank) == Sorted(FencedObjects(t), IdRank);
    SortedSame(FencedObjects(s), FencedObjects(t), IdRank);
  }

  // ---- Down to the fields ----

  predicate AlikeClaims(a: seq<Attestation>, b: seq<Attestation>)
  {
    |a| == |b| && forall i :: 0 <= i < |a| ==> CiteClaim(a[i]) == CiteClaim(b[i])
  }

  predicate AlikeEdges(a: Edge, b: Edge)
  {
    && a.subject == b.subject && a.port == b.port && a.slot == b.slot && a.incarnation == b.incarnation
    && a.authority == b.authority && a.connectorCompatible == b.connectorCompatible
    && a.mediaCompatible == b.mediaCompatible && a.conflicting == b.conflicting && AlikeClaims(a.claims, b.claims)
  }

  predicate AlikeNotes(a: Note, b: Note)
  {
    a.reason == b.reason && a.subject == b.subject && a.port == b.port && AlikeClaims(a.claims, b.claims)
  }

  /** The same but for lifetime flags, receive times, validation, emptiness claims and what was overridden. */
  predicate AlikePorts(a: PortView, b: PortView)
  {
    && a.port == b.port && a.state == b.state && a.capability == b.capability
    && |a.edges| == |b.edges| && (forall i :: 0 <= i < |a.edges| ==> AlikeEdges(a.edges[i], b.edges[i]))
    && |a.conflicts| == |b.conflicts|
    && (forall i :: 0 <= i < |a.conflicts| ==> AlikeNotes(a.conflicts[i], b.conflicts[i]))
  }

  predicate AlikeObjects(a: ObjectView, b: ObjectView)
  {
    && a.id == b.id && a.kind == b.kind && a.physicalLabel == b.physicalLabel && a.serial == b.serial
    && a.location == b.location && a.incarnation == b.incarnation && a.lifecycle == b.lifecycle
    && a.capability == b.capability && |a.sides| == |b.sides|
    && (forall i :: 0 <= i < |a.sides| ==> a.sides[i].descriptor == b.sides[i].descriptor)
    && EdgeCount(a.sides) == EdgeCount(b.sides) && EdgesMatched(a.sides, b.sides) && EdgesMatched(b.sides, a.sides)
  }

  predicate Matched(e: Edge, sides: seq<SideView>)
  {
    exists i, j :: 0 <= i < |sides| && 0 <= j < |sides[i].edges| && AlikeEdges(e, sides[i].edges[j])
  }

  /** Every edge of the first sides is found among the second. */
  predicate EdgesMatched(a: seq<SideView>, b: seq<SideView>)
  {
    forall i, j :: 0 <= i < |a| && 0 <= j < |a[i].edges| ==> Matched(a[i].edges[j], b)
  }

  lemma ClaimsAlike(cs: seq<SnapClaim>, a: seq<Attestation>, b: seq<Attestation>)
    requires ClaimsTold(cs, a) && ClaimsTold(cs, b)
    ensures AlikeClaims(a, b)
  {
  }

  lemma EdgesAlike(t: SnapEdge, a: Edge, b: Edge)
    requires EdgeTold(t, a) && EdgeTold(t, b)
    ensures AlikeEdges(a, b)
  {
    hide ClaimsTold, AlikeClaims;
    ClaimsAlike(t.claims, a.claims, b.claims);
  }

  lemma PortsAlike(a: PortView, b: PortView)
    requires SnapPortOf(a) == SnapPortOf(b)
    ensures AlikePorts(a, b)
  {
    hide ClaimsTold, AlikeClaims, AlikeEdges, EdgeTold, SnapPortOf;
    PortSnapped(a);
    PortSnapped(b);
    var t := SnapPortOf(a);
    forall i | 0 <= i < |a.edges|
      ensures AlikeEdges(a.edges[i], b.edges[i])
    {
      EdgesAlike(t.attachments[i], a.edges[i], b.edges[i]);
    }
    forall i | 0 <= i < |a.conflicts|
      ensures AlikeNotes(a.conflicts[i], b.conflicts[i])
    {
      assert NoteTold(t.conflicts[i], a.conflicts[i]) && NoteTold(t.conflicts[i], b.conflicts[i]);
      ClaimsAlike(t.conflicts[i].claims, a.conflicts[i].claims, b.conflicts[i].claims);
    }
  }

  lemma ObjectsAlike(a: ObjectView, b: ObjectView)
    requires SnapObjectOf(Some(a)) == SnapObjectOf(Some(b))
    ensures AlikeObjects(a, b)
  {
    hide SnapObjectOf, AttachmentTold, EveryEdgeTold, EdgesMatched;
    ObjectSnapped(a);
    ObjectSnapped(b);
    var t := SnapObjectOf(Some(a)).value;
    SidesMatched(t.attachments, a.sides, b.sides);
    SidesMatched(t.attachments, b.sides, a.sides);
  }

  lemma SidesMatched(attachments: seq<SnapEdge>, a: seq<SideView>, b: seq<SideView>)
    requires EveryEdgeTold(attachments, a) && forall x :: x in attachments ==> AttachmentTold(x, b)
    ensures EdgesMatched(a, b)
  {
    hide EdgeTold, AlikeEdges;
    forall i, j | 0 <= i < |a| && 0 <= j < |a[i].edges|
      ensures Matched(a[i].edges[j], b)
    {
      var x :| x in attachments && EdgeTold(x, a[i].edges[j]);
      var k, m :| 0 <= k < |b| && 0 <= m < |b[k].edges| && EdgeTold(x, b[k].edges[m]);
      EdgesAlike(x, a[i].edges[j], b[k].edges[m]);
    }
  }

  /**
    * Equal snapshots of two reachable states show the same registered objects and endpoints, the same
    * ports with records and the same fenced sessions and objects.  Of each port they show the same state,
    * capability, edges and notes; of each object the same registration, incarnation, lifecycle,
    * capability and attachments.
    */
  lemma SnapshotTells(s: RegistryState, t: RegistryState, l: Limits, h: nat)
    requires Good(s, l, h) && Good(t, l, h) && BuildSnapshot(s, l) == BuildSnapshot(t, l)
    ensures s.objects.Keys == t.objects.Keys && s.endpoints.Keys == t.endpoints.Keys && s.ports.Keys == t.ports.Keys
    ensures forall x :: x in s.objects ==>
              DeriveObject(s, IncludeAll, x).Some? && DeriveObject(t, IncludeAll, x).Some?
              && AlikeObjects(DeriveObject(s, IncludeAll, x).value, DeriveObject(t, IncludeAll, x).value)
    ensures forall x :: x in s.endpoints ==>
              EndpointOf(s, x).Some? && EndpointOf(t, x).Some?
              && EndpointOf(s, x).value.(id := x) == EndpointOf(t, x).value.(id := x)
    ensures forall p :: p in s.ports ==> AlikePorts(DerivePort(s, l, IncludeAll, p), DerivePort(t, l, IncludeAll, p))
    ensures FencedSessions(s) == FencedSessions(t) && FencedObjects(s) == FencedObjects(t)
  {
    hide BuildSnapshot, DeriveObject, EndpointOf, DerivePort, SnapObjectOf, SnapPortOf, FencedSessions, FencedObjects,
         Good, AlikeObjects, AlikePorts;
    SameObjects(s, t, l, h);
    SameEndpoints(s, t, l, h);
    SamePorts(s, t, l);
    SameFenced(s, t, l);
    forall x | x in s.objects
      ensures DeriveObject(s, IncludeAll, x).Some? && DeriveObject(t, IncludeAll, x).Some?
      ensures AlikeObjects(DeriveObject(s, IncludeAll, x).value, DeriveObject(t, IncludeAll, x).value)
    {
      RegisteredView(s, l, h, x);
      RegisteredView(t, l, h, x);
      ObjectsAlike(DeriveObject(s, IncludeAll, x).value, DeriveObject(t, IncludeAll, x).value);
    }
    forall p | p in s.ports
      ensures AlikePorts(DerivePort(s, l, IncludeAll, p), DerivePort(t, l, IncludeAll, p))
    {
      PortsAlike(DerivePort(s, l, IncludeAll, p), DerivePort(t, l, IncludeAll, p));
    }
  }

  // ---- The counts ----

  lemma InTable<P(!new), K(!new), V>(t: Table<P, K, V>, key: (P, K) -> Key, k: Key)
    ensures k in TableKeys(t, key) <==> exists p, j :: Has(t, p, j) && key(p, j) == k
  {
    if p, j :| Has(t, p, j) && key(p, j) == k { assert p in t && j in t[p]; }
  }

  /** The keys of a state are those that hold a record. */
  lemma KeysExactly(s: RegistryState, k: Key)
    requires SlotsFiled(s.ports)
    ensures k in KeysOf(s) <==> At(s, k).Some?
  {
    hide TableKeys, SlotsFiled;
    InTable(s.objects, (x, o) => ObjectKey(x, o), k);
    InTable(s.endpoints, (x, o) => EndpointKey(x, o), k);
    InTable(s.subjects, (x, o) => SubjectKey(x, o), k);
    InTable(s.lifecycles, (x, o) => LifecycleKey(x, o), k);
    InTable(s.reincarnations, (x, o) => ReincarnationKey(x, o), k);
    InTable(s.objectCapabilities, (x, o) => ObjectCapabilityKey(x, o), k);
    InTable(s.portCapabilities, (x, o) => PortCapabilityKey(x, o), k);
    PortKeysExactly(s, k);
  }

  lemma PortKeysExactly(s: RegistryState, k: Key)
    requires SlotsFiled(s.ports)
    ensures k in TableKeys(s.ports, (p, j) => PortKey(j)) <==>
            k.PortKey? && Has(s.ports, k.slotKey.port, k.slotKey)
  {
    InTable(s.ports, (p, j) => PortKey(j), k);
    if k.PortKey? && Has(s.ports, k.slotKey.port, k.slotKey) {
      assert ((p: PortRef, j: SlotKey) => PortKey(j))(k.slotKey.port, k.slotKey) == k;
    }
  }

  /** The object a placement or lifecycle record is about, when it was made against another incarnation. */
  ghost predicate Outdated(s: RegistryState, k: Key, x: Id)
  {
    At(s, k).Some? &&
    match At(s, k).value.value
    case SubjectClaim(side, v) => side.objectId == x && v.objectIncarnation != IncarnationOf(s, x)
    case PortClaim(_, v) => v.subject.objectId == x && v.objectIncarnation != IncarnationOf(s, x)
    case LifecycleClaim(y, v) => y == x && v.objectIncarnation != IncarnationOf(s, x)
    case _ => false
  }

  /** How many records the key has superseded and still holds. */
  function Depth(s: RegistryState, k: Key): nat { if At(s, k).Some? then |At(s, k).value.superseded| else 0 }

  ghost predicate SetAside(s: RegistryState, k: Key)
  {
    && !k.ObjectKey? && !k.EndpointKey? && !k.ReincarnationKey?
    && (Fenced(s, KeyOwner(k)) || exists x :: ObjectExists(s, x) && Outdated(s, k, x))
  }

  /** The record waits for an object, a port or an incarnation nobody has brought yet. */
  ghost predicate Waits(s: RegistryState, k: Key)
  {
    At(s, k).Some? &&
    match At(s, k).value.value
    case SubjectClaim(side, v) =>
      || !ObjectExists(s, side.objectId)
      || (!Fenced(s, KeyOwner(k)) && v.objectIncarnation > IncarnationOf(s, side.objectId))
    case PortClaim(key, v) =>
      || !PortExists(s, key.port) || !ObjectExists(s, v.subject.objectId)
      || v.objectIncarnation > IncarnationOf(s, v.subject.objectId)
    case LifecycleClaim(x, _) => !ObjectExists(s, x)
    case ReincarnationClaim(x, _) => !ObjectExists(s, x)
    case ObjectCapabilityClaim(x, _) => !ObjectExists(s, x)
    case PortCapabilityClaim(p, _) => !PortExists(s, p)
    case _ => false
  }

  lemma WeightsExactly(s: RegistryState, k: Key)
    ensures FencedWeight(s, k) == if At(s, k).Some? && SetAside(s, k) then 1 + Depth(s, k) else 0
    ensures forall x :: ObjectWeight(s, x, k) == if Outdated(s, k, x) then 1 + Depth(s, k) else 0
    ensures forall o :: SessionWeight(s, o, k) ==
                        if At(s, k).Some? && KeyOwner(k) == o && !k.ObjectKey? && !k.EndpointKey? then 1 + Depth(s, k)
                        else 0
    ensures PendingWeight(s, k) == if Waits(s, k) then 1 else 0
  {
    hide IncarnationOf, At, ObjectExists, Fenced, PortExists;
    if At(s, k).Some? {
      var b := Binding(At(s, k).value.value);
      if b.Some? && ObjectExists(s, b.value.0) && b.value.1 != IncarnationOf(s, b.value.0) {
        assert Outdated(s, k, b.value.0);
      }
    }
  }

  /** A sum of weights counts the pairs of a key and a number below its weight. */
  ghost function Pairs(keys: set<Key>, w: Key -> nat): set<(Key, int)>
  {
    set k, i | k in keys && 0 <= i < w(k) :: (k, i)
  }

  lemma {:induction false} TotalCounts(keys: set<Key>, w: Key -> nat)
    ensures Total(keys, w) == |Pairs(keys, w)|
    decreases |keys|
  {
    if keys == {} {
      assert Pairs(keys, w) == {};
    } else {
      var k :| k in keys && Total(keys, w) == w(k) + Total(keys - {k}, w);
      TotalCounts(keys - {k}, w);
      var mine := set i | 0 <= i < w(k) :: (k, i);
      Rungs(k, w(k));
      assert Pairs(keys, w) == Pairs(keys - {k}, w) + mine && Pairs(keys - {k}, w) !! mine;
    }
  }

  lemma {:induction false} Rungs(k: Key, n: nat)
    ensures |set i | 0 <= i < n :: (k, i)| == n
  {
    var all := set i | 0 <= i < n :: (k, i);
    if n > 0 {
      Rungs(k, n - 1);
      var rest := set i | 0 <= i < n - 1 :: (k, i);
      assert all == rest + {(k, n - 1)} && (k, n - 1) !in rest;
    } else {
      assert all == {};
    }
  }

  /** The records, and those they superseded, under keys that are set aside; and the keys that wait. */
  ghost function AsidePairs(s: RegistryState): set<(Key, int)>
  {
    set k, i | k in KeysOf(s) && 0 <= i <= Depth(s, k) && SetAside(s, k) :: (k, i)
  }
  ghost function OutdatedPairs(s: RegistryState, x: Id): set<(Key, int)>
  {
    set k, i | k in KeysOf(s) && 0 <= i <= Depth(s, k) && Outdated(s, k, x) :: (k, i)
  }
  ghost function SessionPairs(s: RegistryState, o: Owner): set<(Key, int)>
  {
    set k, i | k in KeysOf(s) && 0 <= i <= Depth(s, k) && KeyOwner(k) == o && !k.ObjectKey? && !k.EndpointKey? :: (k, i)
  }
  ghost function Waiting(s: RegistryState): set<Key> { set k | k in KeysOf(s) && Waits(s, k) }

  lemma CountBy(keys: set<Key>, w: Key -> nat, depth: Key -> nat, p: Key -> bool)
    requires forall k :: k in keys ==> w(k) == if p(k) then 1 + depth(k) else 0
    ensures Total(keys, w) == |set k, i | k in keys && 0 <= i <= depth(k) && p(k) :: (k, i)|
  {
    hide Total;
    TotalCounts(keys, w);
    assert Pairs(keys, w) == set k, i | k in keys && 0 <= i <= depth(k) && p(k) :: (k, i);
  }

  lemma AsideCounted(s: RegistryState)
    requires SlotsFiled(s.ports)
    ensures Total(KeysOf(s), k => FencedWeight(s, k)) == |AsidePairs(s)|
  {
    hide KeysOf, FencedWeight, Total, SetAside, Depth, SlotsFiled, At;
    forall k | k in KeysOf(s)
      ensures FencedWeight(s, k) == if SetAside(s, k) then 1 + Depth(s, k) else 0
    {
      KeysExactly(s, k);
      WeightsExactly(s, k);
    }
    var depth: Key -> nat := k => Depth(s, k);
    var p: Key -> bool := k => SetAside(s, k);
    CountBy(KeysOf(s), k => FencedWeight(s, k), depth, p);
    assert AsidePairs(s) == set k, i | k in KeysOf(s) && 0 <= i <= depth(k) && p(k) :: (k, i);
  }

  /** Claims against another incarnation of an object are counted with those they superseded. */
  lemma OutdatedCounted(s: RegistryState, x: Id)
    requires SlotsFiled(s.ports)
    ensures ObjectClaims(s, x) == |OutdatedPairs(s, x)|
  {
    hide KeysOf, ObjectWeight, Total, Outdated, Depth, SlotsFiled, At;
    forall k | k in KeysOf(s)
      ensures ObjectWeight(s, x, k) == if Outdated(s, k, x) then 1 + Depth(s, k) else 0
    {
      WeightsExactly(s, k);
    }
    var depth: Key -> nat := k => Depth(s, k);
    var p: Key -> bool := k => Outdated(s, k, x);
    CountBy(KeysOf(s), k => ObjectWeight(s, x, k), depth, p);
    assert OutdatedPairs(s, x) == set k, i | k in KeysOf(s) && 0 <= i <= depth(k) && p(k) :: (k, i);
  }

  /** So are the claims of a session, all but its registrations. */
  lemma SessionCounted(s: RegistryState, o: Owner)
    requires SlotsFiled(s.ports)
    ensures SessionClaims(s, o) == |SessionPairs(s, o)|
  {
    hide KeysOf, SessionWeight, Total, Depth, SlotsFiled, At;
    forall k | k in KeysOf(s)
      ensures SessionWeight(s, o, k) ==
              if KeyOwner(k) == o && !k.ObjectKey? && !k.EndpointKey? then 1 + Depth(s, k) else 0
    {
      KeysExactly(s, k);
      WeightsExactly(s, k);
    }
    var depth: Key -> nat := k => Depth(s, k);
    var p: Key -> bool := k => KeyOwner(k) == o && !k.ObjectKey? && !k.EndpointKey?;
    CountBy(KeysOf(s), k => SessionWeight(s, o, k), depth, p);
    assert SessionPairs(s, o) == set k, i | k in KeysOf(s) && 0 <= i <= depth(k) && p(k) :: (k, i);
  }

  lemma WaitingCounted(s: RegistryState)
    ensures Total(KeysOf(s), k => PendingWeight(s, k)) == |Waiting(s)|
  {
    hide KeysOf, PendingWeight, Total, Waits, At;
    forall k
      ensures PendingWeight(s, k) == if Waits(s, k) then 1 else 0
    {
      WeightsExactly(s, k);
    }
    TotalCounts(KeysOf(s), k => PendingWeight(s, k));
    OnePerKey(Waiting(s));
    assert Pairs(KeysOf(s), k => PendingWeight(s, k)) == set k | k in Waiting(s) :: (k, 0);
  }

  /**
    * The fenced claims of a snapshot are the records, with those they superseded, whose owner is fenced or
    * which speak of a registered object at another incarnation; the pending ones are the records that wait.
    */
  lemma CountsExactly(s: RegistryState, l: Limits)
    requires SlotsFiled(s.ports)
    ensures BuildSnapshot(s, l).claimsFenced == |AsidePairs(s)| && BuildSnapshot(s, l).claimsPending == |Waiting(s)|
  {
    hide KeysOf, FencedWeight, PendingWeight, Total, BuildSnapshot, AsidePairs, Waiting, SlotsFiled;
    Tallies(s, l);
    AsideCounted(s);
    WaitingCounted(s);
  }

  lemma Tallies(s: RegistryState, l: Limits)
    ensures BuildSnapshot(s, l).claimsFenced == Total(KeysOf(s), k => FencedWeight(s, k))
    ensures BuildSnapshot(s, l).claimsPending == Total(KeysOf(s), k => PendingWeight(s, k))
  {
    hide SnapObjects, SnapEndpoints, SnapPorts, SnapFencedObjects, SnapSessions, Sorted, Total, FencedObjects, KeysOf;
  }

  lemma {:induction false} OnePerKey(keys: set<Key>)
    ensures |set k | k in keys :: (k, 0)| == |keys|
    decreases |keys|
  {
    var all := set k | k in keys :: (k, 0);
    if keys == {} {
      assert all == {};
    } else {
      var k :| k in keys;
      OnePerKey(keys - {k});
      var rest := set j | j in keys - {k} :: (j, 0);
      assert all == rest + {(k, 0)} && (k, 0) !in rest;
    }
  }
}
