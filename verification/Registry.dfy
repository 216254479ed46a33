// The registry object: its state, the label index it keeps beside it, and the refusal audit,
// updated in place by the operations a caller sees.

// The label index is a hint: it may name objects that no longer carry a label, never miss one.
module LabelIndex {
  import opened Words
  import opened Evidence
  import opened Ordering
  import opened State
  import opened Fold
  import opened Lifecycle
  import opened Ingest

  type Index = map<Text, set<Id>>

  function HoldersIn(index: Index, text: Text): set<Id> { if text in index then index[text] else {} }

  function AddLabel(index: Index, text: Text, x: Id): (r: Index)
    ensures forall t, y :: y in HoldersIn(index, t) ==> y in HoldersIn(r, t)
    ensures text != [] ==> x in HoldersIn(r, text)
  {
    if text == [] then index else index[text := HoldersIn(index, text) + {x}]
  }

  /** Every label an object carries now is indexed under it. */
  ghost predicate Covers(objects: Table<Id, Owner, ObjectDescriptor>, index: Index)
  {
    forall x, o :: Has(objects, x, o) && objects[x][o].value.physicalLabel != [] ==>
      x in HoldersIn(index, objects[x][o].value.physicalLabel)
  }

  /** The objects the index offers that really block the registration. */
  ghost function Blockers(s: RegistryState, holders: set<Id>, d: ObjectDescriptor): (r: set<Id>)
    ensures r <= holders
  {
    set x | x in holders && Blocking(s, x, d)
  }

  ghost predicate Blocking(s: RegistryState, x: Id, d: ObjectDescriptor)
  {
    x != d.id && x in s.objects && HoldsLabel(s, x, d.physicalLabel) && LifecycleOf(s, x).action != Retired
  }

  /** A covering index offers exactly the blockers a full scan finds, whatever stale entries it holds. */
  lemma IndexIsScan(s: RegistryState, index: Index, d: ObjectDescriptor)
    requires Covers(s.objects, index) && d.physicalLabel != []
    ensures Blockers(s, HoldersIn(index, d.physicalLabel), d) == LabelBlockers(s, d)
  {
    hide LifecycleOf;
    forall x | x in LabelBlockers(s, d)
      ensures x in HoldersIn(index, d.physicalLabel)
    {
      var o :| o in Group(s.objects, x) && s.objects[x][o].value.physicalLabel == d.physicalLabel;
      assert Has(s.objects, x, o);
    }
  }

  /** Registering a descriptor and indexing its label keeps the index covering. */
  lemma AddCovers(objects: Table<Id, Owner, ObjectDescriptor>, index: Index, x: Id, o: Owner,
                  f: Folded<ObjectDescriptor>)
    requires Covers(objects, index)
    ensures Covers(Put(objects, x, o, f), AddLabel(index, f.value.physicalLabel, x))
  {
    var objects': Table<Id, Owner, ObjectDescriptor> := Put(objects, x, o, f);
    var index' := AddLabel(index, f.value.physicalLabel, x);
    forall y: Id, p: Owner | Has(objects', y, p) && objects'[y][p].value.physicalLabel != []
      ensures y in HoldersIn(index', objects'[y][p].value.physicalLabel)
    {
      if y != x || p != o {
        assert Has(objects, y, p) && objects[y][p] == objects'[y][p];
      }
    }
  }

  lemma FoldCovers(objects: Table<Id, Owner, ObjectDescriptor>, index: Index, x: Id, meta: Attestation,
                   d: ObjectDescriptor, h: nat)
    requires Covers(objects, index)
    ensures Covers(FoldIn(objects, x, meta.owner, meta, d, h), AddLabel(index, d.physicalLabel, x))
  {
    var o := meta.owner;
    AddCovers(objects, index, x, o, if Has(objects, x, o) then FoldWin(objects[x][o], meta, d, h)
      else Folded(meta, d, [], 0));
  }

  /** Forgetting lifetimes changes no descriptor. */
  lemma ClearCovers(objects: Table<Id, Owner, ObjectDescriptor>, index: Index)
    requires Covers(objects, index)
    ensures Covers(ClearTable(objects), index)
  {
    var objects': Table<Id, Owner, ObjectDescriptor> := ClearTable(objects);
    forall y: Id, p: Owner | Has(objects', y, p)
      ensures Has(objects, y, p) && objects'[y][p].value == objects[y][p].value
    {
    }
  }

  /** A losing registration changes no descriptor. */
  lemma LoseCovers(objects: Table<Id, Owner, ObjectDescriptor>, index: Index, x: Id, meta: Attestation, h: nat)
    requires Covers(objects, index)
    ensures Covers(FoldLosingIn(objects, x, meta.owner, meta, h), index)
  {
    var objects': Table<Id, Owner, ObjectDescriptor> := FoldLosingIn(objects, x, meta.owner, meta, h);
    forall y: Id, p: Owner | Has(objects', y, p)
      ensures Has(objects, y, p) && objects'[y][p].value == objects[y][p].value
    {
    }
  }
}

module LabelScan {
  import opened Words
  import opened Evidence
  import opened Ordering
  import opened State
  import opened Lifecycle
  import opened Ingest
  import opened Lookups
  import opened LabelIndex

  method CarriesLabel(s: RegistryState, x: Id, text: Text) returns (r: bool)
    ensures r == HoldsLabel(s, x, text)
  {
    var group := Group(s.objects, x);
    var todo := group.Keys;
    while todo != {}
      invariant todo <= group.Keys
      invariant forall o :: o in group && o !in todo ==> group[o].value.physicalLabel != text
      decreases |todo|
    {
      var o :| o in todo;
      todo := todo - {o};
      if group[o].value.physicalLabel == text { return true; }
    }
    return false;
  }

  method Blocks(s: RegistryState, x: Id, d: ObjectDescriptor) returns (r: bool)
    ensures r == Blocking(s, x, d)
  {
    if x == d.id || x !in s.objects { return false; }
    var holds := CarriesLabel(s, x, d.physicalLabel);
    if !holds { return false; }
    var verdict := LifecycleActionOf(s, x);
    return verdict.action != Retired;
  }

  method LowestId(todo: set<Id>) returns (x: Id)
    requires todo != {}
    ensures x in todo && forall y :: y in todo ==> x <= y
  {
    LeastExists(todo, IdRank);
    assert exists k :: k in todo && forall y :: y in todo ==> k <= y by {
      var k :| k in todo && forall y :: y in todo ==> IdRank(k) <= IdRank(y);
      assert forall y :: y in todo ==> IdRank(k) <= IdRank(y);
    }
    x :| x in todo && forall y :: y in todo ==> x <= y;
  }

  ghost function FirstOf(s: RegistryState, holders: set<Id>, d: ObjectDescriptor): Option<Id>
  {
    if Blockers(s, holders, d) == {} then None else Some(Least(Blockers(s, holders, d), IdRank))
  }

  lemma FirstFound(s: RegistryState, holders: set<Id>, d: ObjectDescriptor, x: Id)
    requires x in holders && Blocking(s, x, d) && forall y :: y in Blockers(s, holders, d) ==> x <= y
    ensures FirstOf(s, holders, d) == Some(x)
  {
    hide Blocking;
    assert x in Blockers(s, holders, d);
  }

  lemma Skipped(s: RegistryState, holders: set<Id>, d: ObjectDescriptor, todo: set<Id>, x: Id)
    requires Blockers(s, holders, d) <= todo && !Blocking(s, x, d)
    ensures Blockers(s, holders, d) <= todo - {x}
  {
    hide Blocking;
  }

  /** Looks at the holders in id order and stops at the first that blocks. */
  method FirstBlocker(s: RegistryState, holders: set<Id>, d: ObjectDescriptor) returns (r: Option<Id>)
    ensures r == FirstOf(s, holders, d)
  {
    hide Blocking, Blockers;
    var todo := holders;
    while todo != {}
      invariant todo <= holders && Blockers(s, holders, d) <= todo
      decreases |todo|
    {
      var x := LowestId(todo);
      var blocks := Blocks(s, x, d);
      if blocks {
        FirstFound(s, holders, d, x);
        return Some(x);
      }
      Skipped(s, holders, d, todo, x);
      todo := todo - {x};
    }
    return None;
  }
}

module RegistryObject {
  import opened Words
  import opened Evidence
  import opened Ordering
  import opened State
  import opened Fold
  import opened Lifecycle
  import opened Ingest
  import opened Sessions
  import opened FoldLoops
  import opened ClearLoops
  import opened Lookups
  import opened LabelIndex
  import opened LabelScan

  datatype Refusal = Refusal(evidence: Id, disposition: Disposition)

  /** The last n entries. */
  function Latest(audit: seq<Refusal>, n: nat): (r: seq<Refusal>)
    ensures |r| <= n
  {
    if |audit| > n then audit[|audit| - n..] else audit
  }

  class Registry {
    const limits: Limits
    const history: nat
    var state: RegistryState
    var labelIndex: Index
    var indexValid: bool
    var refusals: seq<Refusal>
    var closed: bool

    /** The index covers every label, and the audit is bounded. */
    ghost predicate Valid()
      reads this
    {
      (indexValid ==> Covers(state.objects, labelIndex)) && |refusals| <= limits.maxRefusals
    }

    constructor (id: Id, openedAt: I64, limits: Limits, history: nat)
      ensures Valid() && state == EmptyState(id, openedAt) && refusals == [] && !closed
      ensures this.limits == limits && this.history == history
    {
      this.limits := limits;
      this.history := history;
      state := EmptyState(id, openedAt);
      labelIndex := map[];
      indexValid := false;
      refusals := [];
      closed := false;
    }

    // ---- The label index ----

    method IndexObject(index: Index, x: Id) returns (r: Index)
      requires x in state.objects
      ensures forall t, y :: y in HoldersIn(index, t) ==> y in HoldersIn(r, t)
      ensures forall o :: o in state.objects[x] && state.objects[x][o].value.physicalLabel != [] ==>
                x in HoldersIn(r, state.objects[x][o].value.physicalLabel)
    {
      r := index;
      var group := state.objects[x];
      var todo := group.Keys;
      while todo != {}
        invariant todo <= group.Keys
        invariant forall t, y :: y in HoldersIn(index, t) ==> y in HoldersIn(r, t)
        invariant forall o :: o in group && o !in todo && group[o].value.physicalLabel != [] ==>
                  x in HoldersIn(r, group[o].value.physicalLabel)
        decreases |todo|
      {
        var o :| o in todo;
        todo := todo - {o};
        r := AddLabel(r, group[o].value.physicalLabel, x);
      }
    }

    method RebuildLabelIndex()
      requires Valid()
      modifies this`labelIndex, this`indexValid
      ensures Valid() && indexValid
    {
      labelIndex := map[];
      indexValid := false;
      var todo := state.objects.Keys;
      var index: Index := map[];
      while todo != {}
        invariant todo <= state.objects.Keys
        invariant forall x, o ::
                  Has(state.objects, x, o) && x !in todo && state.objects[x][o].value.physicalLabel != [] ==>
                    x in HoldersIn(index, state.objects[x][o].value.physicalLabel)
        decreases |todo|
      {
        var x :| x in todo;
        todo := todo - {x};
        index := IndexObject(index, x);
      }
      labelIndex := index;
      indexValid := true;
    }

    method LabelHolders(text: Text) returns (r: set<Id>)
      requires Valid()
      modifies this`labelIndex, this`indexValid
      ensures Valid() && indexValid && r == HoldersIn(labelIndex, text)
    {
      if !indexValid { RebuildLabelIndex(); }
      r := HoldersIn(labelIndex, text);
    }

    /** The label rule through the index: the same answer, and the same holder, as a full scan in id order. */
    method CheckLabel(d: ObjectDescriptor) returns (holder: Option<Id>)
      requires Valid()
      modifies this`labelIndex, this`indexValid
      ensures Valid() && holder == LabelConflict(state, d)
    {
      hide LifecycleOf, HoldsLabel, LabelIndex.Covers, Blockers;
      if d.physicalLabel == [] { return None; }
      var holders := LabelHolders(d.physicalLabel);
      IndexIsScan(state, labelIndex, d);
      holder := FirstBlocker(state, holders, d);
    }

    // ---- Deciding ----

    method PortIsThere(port: PortRef) returns (r: bool)
      ensures r == PortExists(state, port)
    {
      var count := CountPorts(state, port.endpoint);
      r := port.index < count;
    }

    method AnyPortMissing(claims: seq<Claim>) returns (r: bool)
      ensures r == exists c :: c in claims && c.PortClaim? && !PortExists(state, c.slotKey.port)
    {
      hide PortExists;
      var i := 0;
      while i < |claims|
        invariant 0 <= i <= |claims|
        invariant forall j :: 0 <= j < i && claims[j].PortClaim? ==> PortExists(state, claims[j].slotKey.port)
      {
        if claims[i].PortClaim? {
          var there := PortIsThere(claims[i].slotKey.port);
          if !there {
            assert claims[i] in claims;
            return true;
          }
        }
        i := i + 1;
      }
      return false;
    }

    method DecidePlacing(e: Evidence, meta: Attestation) returns (r: Decision)
      requires e.payload.Attach? || e.payload.Detach? || e.payload.Move?
      ensures r == DecidePlacement(state, limits, e, meta)
    {
      hide OutcomeOf, PortCapacityReached, IncarnationOf, ObjectExists, PortExists, Fenced, ClaimsOf, Effective;
      var claims := ClaimsOf(e);
      if exists c :: c in claims && c.PortClaim? && PortCapacityReached(state, limits, c.slotKey) {
        return Nothing(meta, RefusedCapacity);
      }
      if exists c :: c in claims && OutcomeOf(state, c, meta) == Collision {
        return Nothing(meta, RefusedConflict);
      }
      var writes := Select(state, claims, meta, Insert);
      var rings := Select(state, claims, meta, Superseded);
      if writes == [] && rings == [] { return Nothing(meta, DuplicateRecord); }
      if writes == [] { return Decision(AcceptedSuperseded, Staged(meta, rings, [], true), None); }
      var x := e.payload.subject.objectId;
      var current := ObjectIncarnationOf(state, x);
      var missing := AnyPortMissing(claims);
      var pending := !ObjectExists(state, x) || missing;
      r := Decision(
        Effective(if pending then AcceptedPendingReference else Accepted, Fenced(state, meta.owner),
                  e.payload.objectIncarnation < current, e.payload.objectIncarnation > current),
        Staged(meta, rings, writes, true), None);
    }

    method DecideObject(d: ObjectDescriptor, c: Claim, meta: Attestation) returns (r: Decision)
      requires Valid()
      modifies this`labelIndex, this`indexValid
      ensures Valid()
      ensures r == if LabelConflict(state, d).Some? then Decision(RefusedLabelConflict, Staged(meta, [], [], false),
              LabelConflict(state, d))
                   else if d.id !in state.objects && |state.objects| >= limits.maxObjects
                     then Nothing(meta, RefusedCapacity)
                   else Write(meta, c, Effective(Accepted, Fenced(state, meta.owner), false, false))
    {
      hide LabelConflict, LabelIndex.Covers;
      var holder := CheckLabel(d);
      if holder.Some? { return Decision(RefusedLabelConflict, Staged(meta, [], [], false), holder); }
      if d.id !in state.objects && |state.objects| >= limits.maxObjects { return Nothing(meta, RefusedCapacity); }
      r := Write(meta, c, Effective(Accepted, Fenced(state, meta.owner), false, false));
    }

    /** decide(): stages the change without touching the claims. */
    method DecideRecord(e: Evidence, meta: Attestation) returns (r: Decision)
      requires Valid()
      modifies this`labelIndex, this`indexValid
      ensures Valid() && r == Decide(state, limits, e, meta)
    {
      hide OutcomeOf, IncarnationOf, ObjectExists, PortExists, Fenced, Effective, LabelConflict, DecidePlacement,
           LabelIndex.Covers, TargetOf;
      if e.payload.Attach? || e.payload.Detach? || e.payload.Move? {
        r := DecidePlacing(e, meta);
        return;
      }
      var c := ClaimsOf(e)[0];
      var fenced := Fenced(state, meta.owner);
      var outcome := OutcomeOf(state, c, meta);
      if outcome != Insert { return Settled(meta, c, outcome); }
      match e.payload
      case RegisterObject(d) => r := DecideObject(d, c, meta);
      case RegisterEndpoint(d) =>
        if d.id !in state.endpoints && |state.endpoints| >= limits.maxEndpoints {
          return Nothing(meta, RefusedCapacity);
        }
        r := Write(meta, c, Effective(Accepted, fenced, false, false));
      case SetLifecycle(x, incarnation, _, _) =>
        var current := ObjectIncarnationOf(state, x);
        r := Write(meta, c, Effective(if ObjectExists(state, x) then Accepted else AcceptedPendingReference, fenced,
                                      incarnation < current, incarnation > current));
      case ReincarnateObject(x, from, _, _) =>
        if !ObjectExists(state, x) { return Write(meta, c, Effective(AcceptedPendingReference, fenced, false, false)); }
        var current := ObjectIncarnationOf(state, x);
        if TargetOf(from) <= current { return RingOnly(meta, c); }
        r := Write(meta, c, Effective(Accepted, fenced, false, false));
      case PublishObjectCapability(x, _) =>
        r := Write(meta, c, Effective(if ObjectExists(state, x) then Accepted
          else AcceptedPendingReference, fenced, false, false));
      case PublishPortCapability(p, _) =>
        var there := PortIsThere(p);
        r := Write(meta, c, Effective(if there then Accepted else AcceptedPendingReference, fenced, false, false));
    }

    // ---- Applying ----

    /** fold() into the table the claim names, keeping the label index up to date. */
    method WriteOne(c: Claim, meta: Attestation)
      requires Valid()
      modifies this`state, this`labelIndex
      ensures Valid() && state == WriteClaim(old(state), c, meta, history)
    {
      hide FoldIn, LabelIndex.Covers, AddLabel;
      var o := meta.owner;
      match c
      case ObjectClaim(x, d) =>
        if indexValid {
          FoldCovers(state.objects, labelIndex, x, meta, d, history);
          labelIndex := AddLabel(labelIndex, d.physicalLabel, x);
        }
        var t := FoldTable(state.objects, x, o, meta, d, history);
        state := state.(objects := t);
      case EndpointClaim(x, d) =>
        var t := FoldTable(state.endpoints, x, o, meta, d, history);
        state := state.(endpoints := t);
      case SubjectClaim(side, v) =>
        var t := FoldTable(state.subjects, side, o, meta, v, history);
        state := state.(subjects := t);
      case PortClaim(key, v) =>
        var t := FoldTable(state.ports, key.port, key, meta, v, history);
        state := state.(ports := t);
      case LifecycleClaim(x, v) =>
        var t := FoldTable(state.lifecycles, x, o, meta, v, history);
        state := state.(lifecycles := t);
      case ReincarnationClaim(x, v) =>
        var t := FoldTable(state.reincarnations, x, o, meta, v, history);
        state := state.(reincarnations := t);
      case ObjectCapabilityClaim(x, v) =>
        var t := FoldTable(state.objectCapabilities, x, o, meta, v, history);
        state := state.(objectCapabilities := t);
      case PortCapabilityClaim(p, v) =>
        var t := FoldTable(state.portCapabilities, p, o, meta, v, history);
        state := state.(portCapabilities := t);
    }

    /** fold_losing() into the table the claim names. */
    method RingOne(c: Claim, meta: Attestation)
      requires Valid()
      modifies this`state
      ensures Valid() && state == RingClaim(old(state), c, meta, history)
    {
      hide FoldLosingIn, LabelIndex.Covers;
      var o := meta.owner;
      match c
      case ObjectClaim(x, _) =>
        if indexValid { LoseCovers(state.objects, labelIndex, x, meta, history); }
        var t := FoldLosingTable(state.objects, x, o, meta, history);
        state := state.(objects := t);
      case EndpointClaim(x, _) =>
        var t := FoldLosingTable(state.endpoints, x, o, meta, history);
        state := state.(endpoints := t);
      case SubjectClaim(side, _) =>
        var t := FoldLosingTable(state.subjects, side, o, meta, history);
        state := state.(subjects := t);
      case PortClaim(key, _) =>
        var t := FoldLosingTable(state.ports, key.port, key, meta, history);
        state := state.(ports := t);
      case LifecycleClaim(x, _) =>
        var t := FoldLosingTable(state.lifecycles, x, o, meta, history);
        state := state.(lifecycles := t);
      case ReincarnationClaim(x, _) =>
        var t := FoldLosingTable(state.reincarnations, x, o, meta, history);
        state := state.(reincarnations := t);
      case ObjectCapabilityClaim(x, _) =>
        var t := FoldLosingTable(state.objectCapabilities, x, o, meta, history);
        state := state.(objectCapabilities := t);
      case PortCapabilityClaim(p, _) =>
        var t := FoldLosingTable(state.portCapabilities, p, o, meta, history);
        state := state.(portCapabilities := t);
    }

    method ApplyRings(claims: seq<Claim>, meta: Attestation)
      requires Valid()
      modifies this`state
      ensures Valid() && state == RingClaims(old(state), claims, meta, history)
    {
      hide RingClaim, LabelIndex.Covers;
      var i := 0;
      while i < |claims|
        invariant 0 <= i <= |claims| && Valid()
        invariant RingClaims(old(state), claims, meta, history) == RingClaims(state, claims[i..], meta, history)
      {
        assert claims[i..][1..] == claims[i + 1..];
        RingOne(claims[i], meta);
        i := i + 1;
      }
    }

    method ApplyWrites(claims: seq<Claim>, meta: Attestation)
      requires Valid()
      modifies this`state, this`labelIndex
      ensures Valid() && state == WriteClaims(old(state), claims, meta, history)
    {
      hide WriteClaim, LabelIndex.Covers;
      var i := 0;
      while i < |claims|
        invariant 0 <= i <= |claims| && Valid()
        invariant WriteClaims(old(state), claims, meta, history) == WriteClaims(state, claims[i..], meta, history)
      {
        assert claims[i..][1..] == claims[i + 1..];
        WriteOne(claims[i], meta);
        i := i + 1;
      }
    }

    /** apply_change(): the losing claims first, then the winning ones. */
    method Apply(change: Staged)
      requires Valid()
      modifies this`state, this`labelIndex
      ensures Valid() && state == ApplyChange(old(state), change, history)
    {
      hide RingClaims, WriteClaims, LabelIndex.Covers;
      ApplyRings(change.rings, change.meta);
      ApplyWrites(change.writes, change.meta);
    }

    // ---- Operations ----

    method NoteRefusal(evidence: Id, disposition: Disposition)
      requires Valid()
      modifies this`refusals
      ensures Valid() && refusals == Latest(old(refusals) + [Refusal(evidence, disposition)], limits.maxRefusals)
    {
      hide LabelIndex.Covers;
      ghost var all := refusals + [Refusal(evidence, disposition)];
      refusals := refusals + [Refusal(evidence, disposition)];
      while |refusals| > limits.maxRefusals
        invariant |refusals| <= |all| && refusals == all[|all| - |refusals|..]
        invariant |all| > limits.maxRefusals ==> |refusals| >= limits.maxRefusals
        invariant |all| <= limits.maxRefusals ==> refusals == all
      {
        refusals := refusals[1..];
      }
    }

    /**
      * ingest_locked(): `persist` is off while the store is replayed, `durable` is the store's
      * answer when it is on.  The record either takes its whole effect or leaves the claims alone.
      */
    method Ingest(e: Evidence, receivedAt: I64, persist: bool, durable: bool, live: bool)
      returns (disposition: Disposition)
      requires Valid()
      modifies this`state, this`labelIndex, this`indexValid, this`refusals
      ensures Valid()
      ensures closed ==> disposition == RefusedClosed && state == old(state) && refusals == old(refusals)
      ensures !closed ==>
                var r := IngestRecord(old(state), limits, history, e, receivedAt, durable || !persist, live);
                disposition == r.disposition && state == r.state
      ensures !closed ==>
                refusals == if persist && !IsAccepted(disposition)
                            then Latest(old(refusals) + [Refusal(e.header.id, disposition)], limits.maxRefusals)
                              else old(refusals)
    {
      hide LabelIndex.Covers, Decide, ApplyChange, ValidShape, NoteRecord;
      if closed { return RefusedClosed; }
      disposition := if !ValidShape(e, limits) then RefusedInvalid else RefusedUnknownSource;
      if ValidShape(e, limits) && KnownSession(state, e) {
        var o := OwnerOf(e);
        var session := state.sessions[o];
        var meta := MetaOf(state, e, receivedAt, live);
        var decision := DecideRecord(e, meta);
        disposition := decision.disposition;
        if decision.staged.apply && IsAccepted(disposition) {
          if persist && !durable {
            disposition := RefusedPersistence;
          } else {
            Apply(decision.staged);
          }
        }
        state := state.(sessions := state.sessions[o := NoteRecord(session, e.header.generation, disposition)]);
      }
      if persist && !IsAccepted(disposition) { NoteRefusal(e.header.id, disposition); }
    }

    /** OpenSession(): `durable` is the store's answer to the session record. */
    method Open(d: SourceDescriptor, incarnation: U64, openedAt: I64, durable: bool) returns (answer: OpenDisposition)
      requires Valid()
      modifies this`state
      ensures Valid() && (closed ==> answer == OpenClosed && state == old(state))
      ensures !closed ==>
                && answer == OpenAnswer(old(state), limits, d, incarnation, durable)
                && state == OpenSession(old(state), limits, d, incarnation, openedAt, durable)
    {
      hide LabelIndex.Covers, SourceAfterOpen, SourceBefore, SessionAfterOpen;
      if closed { return OpenClosed; }
      answer := OpenAnswer(state, limits, d, incarnation, durable);
      if OpenAccepted(answer) {
        var key := Owner(d.id, incarnation);
        state := ApplySessionOpen(state, d, incarnation, openedAt);
        state := state.(sessions := state.sessions[key := state.sessions[key].(live := true, closed := false)]);
      }
    }

    /** CloseSession(): fails when stopping, when there is no such session, or when the store does. */
    method Close(o: Owner, durable: bool) returns (ok: bool)
      requires Valid()
      modifies this`state
      ensures Valid() && ok == (!closed && o in old(state).sessions && durable)
      ensures state == if closed then old(state) else CloseSession(old(state), o, durable)
    {
      ok := !closed && o in state.sessions && durable;
      if ok {
        state := state.(sessions := state.sessions[o := state.sessions[o].(live := false, closed := true)]);
      }
    }

    /** Replay found a state image: it replaces everything, and the label index no longer counts. */
    method Load(image: RegistryState)
      requires Valid()
      modifies this`state, this`indexValid
      ensures Valid() && state == image
    {
      state := image;
      indexValid := false;
    }

    /** clear_volatile(): the index stays good, since no label changes. */
    method Forget()
      requires Valid()
      modifies this`state
      ensures Valid() && state == ClearVolatile(old(state))
    {
      hide ClearTable;
      var sessions := ClearLiveness(state.sessions);
      var objects := ClearGroups(state.objects);
      var endpoints := ClearGroups(state.endpoints);
      var subjects := ClearGroups(state.subjects);
      var ports := ClearGroups(state.ports);
      var lifecycles := ClearGroups(state.lifecycles);
      var reincarnations := ClearGroups(state.reincarnations);
      var objectCapabilities := ClearGroups(state.objectCapabilities);
      var portCapabilities := ClearGroups(state.portCapabilities);
      if indexValid { ClearCovers(state.objects, labelIndex); }
      state := state.(sessions := sessions, objects := objects, endpoints := endpoints, subjects := subjects,
        ports := ports,
                      lifecycles := lifecycles, reincarnations := reincarnations,
                        objectCapabilities := objectCapabilities,
                      portCapabilities := portCapabilities);
    }
  }
}
