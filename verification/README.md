# A verified model of the Cable Attachment Registry

The registry collects evidence about which end of which cable or plug sits in which port of which endpoint. Sources
publish records (attach, detach, move, register, retire, replace, publish a capability) in sessions; each source has an
authority and an incarnation, each record a generation. The registry keeps, for every key and source incarnation, the
newest record and a bounded ring of the records it superseded, derives the authoritative graph from what is kept, and
stores every accepted record in an append-only log from which it recovers.

This project models that behaviour in Dafny and proves what it is for:

- what every step keeps, over whole runs of sessions, records and restarts;
- that the order and repetition of deliveries do not matter, and exactly what each key ends up holding;
- that answers about ports, sides and objects are exclusive at the authority that decides them, justified, free of
  interference from weaker sources and blind to fenced ones;
- that the log and every codec are read back exactly as written and nothing else is accepted, that cuts are harmless and
  that one changed byte is always noticed;
- that a crash at any point recovers the last acknowledged state or that and the operation in flight.

## How it is built

State, records and specifications are values and functions; what the source does by updating things in place is a class
or a loop, proved against those functions. `RegistryObject.Registry`, `StoreObject.Store`, `Sha256.Hasher`,
`Crc.Calculator`, `Buffers.Encoder` and `Buffers.Decoder` are the source's objects with the source's fields.

| layer | files |
|---|---|
| words, order, records | `Words`, `LittleEndian`, `Ordering`, `Evidence`, `State`, `Orders` |
| evidence fold and ingest | `Fold`, `FoldLoops`, `Lifecycle`, `Lookups`, `Ingest`, `Sessions`, `Keys`, `Registry` |
| what a record, an open and a session mean | `Meaning`, `Vacancy`, `Openings`, `Tallies` |
| what the views show, from the records | `Standing`, `Sides`, `Verdicts`, `Views`, `Disputes`, `Picture` |
| invariants of every run | `Invariants`, `Placement`, `Bounds`, `Overflow` |
| derivation of the graph | `Derive`, `DeriveLoops`, `Objects`, `Answers`, `Sharing`, `Congruence`, `Interference`, `Fencing`, `Incarnations`, `Falls`, `Retirement`, `Relapse`, `Stickiness` |
| order of delivery | `Rings`, `Confluence`, `Snapshot`, `Provenance`, `Fingerprint` |
| digests | `Crc`, `Sha256`, `KnownAnswers` |
| codecs | `Codec`, `Wire`, `Records`, `EvidenceCodec`, `StateImage`, `ImageSize`, `ImageLocal`, `Images`, `WireSizes`, `Buffers`, `ByteArrays`, `Ipc` |
| log, store, recovery | `Log`, `Store`, `Leftovers`, `Twins`, `Recovery`, `Durability`, `Headless`, `Stranding` |

The keyed view (`Keys.At`) is what most results speak about: one key is one table, primary key and owner, and a record
resolves each key it touches on its own (`Effects.IngestAt`). What a function computes is in most cases also stated without
it, from the payload and the records alone: what a record says at each key and when it is taken (`Meaning`), the four
answers about a port and a side (`Standing`, `SideStanding`), the verdict on an object (`Verdicts`), what an object's view
reports (`Views`, `Disputes`), when a session opens (`Openings`) and what a snapshot lists (`Picture`). A run (`Sessions.Run`) is any sequence of session opens,
session closes, records and process restarts, each with whatever answer the store gives.

## Where the code does less than one would expect

Each of these is proved of the code as it is: the exact condition, for every input, and an input or a run that meets it.

- **Compaction can strand the store.** The image reader bounds the owners of one object by `max_sources` and the sessions
  by `64 * max_sources` (in 32 bits), but owners are source *incarnations*, of which there is no limit. A compacted store
  opens again if and only if no count of the state exceeds its reader's bound (`Durability.CompactionExactly`). A new store
  on which one source registers an object, restarts and registers it again opens under either policy; after a successful
  compaction it never does (`Stranding.CompactionStrands`). Recovery is proved for every run whose compactions meet the
  bound.
- **A replacement cannot be retired by whoever introduced it.** A reincarnation at the current incarnation counts as
  Present at its authority, and Present with Retired at that authority reads as Present. What a retirement achieves
  is stated from what holds before it (`Retirement.TimelyCounts`, `Retirement.RetirementTakesHold`): nothing while another
  claim outranks it; otherwise the object is retired if and only if its authority did not bring in the current incarnation or another owner at
  that authority holds it removed or quarantined. `Retirement.ReplacementNotRetired` is the run in which it fails. The
  documentation promises that a reincarnation at equal authority restores a retired object; the same rule keeps that
  authority from retiring the replacement.
- **A port can hold one record more than its limit**, since both keys of a Move are checked against the state before the
  record. It happens if and only if the record is a Move between two fresh slots of that port, nothing else refuses it, and
  the port is one short of its limit (`Overflow.PortOverflow`, `Overflow.OverflowReached`).
- **The range check on reincarnations wraps.** It admits exactly the sources of the targets 2 to 2^32 and the largest
  64-bit incarnation, whose target is zero (`Evidence.ReincarnationRange`). On a registered object such a record changes
  nothing; before registration it replaces what its owner said (`Falls.WrappedTarget`), so an incarnation can fall
  (`Falls.WrapReached`) and deliveries do not commute (`Falls.WrapOrderMatters`).
- **An incarnation can fall.** A session open lowers it if and only if everyone who carried it is an earlier incarnation of
  the source that opens (`Falls.OpenLowersExactly`; `Relapse.RelapseReached` takes a registered object from two to one);
  a record, if and only if the object is not registered and its owner, alone in carrying the incarnation, now names a
  lower one (`Falls.IngestLowersExactly`).
- **A frame length is cut down to 32 bits.** A record that Append takes is read back if and only if its frame fits
  (`Log.ReadBackExactly`); after the shortest that does not, whose length reads zero, the strict policy refuses the store
  (`Leftovers.LongFrameRefused`). Records of the registry always fit: an encoder stops at 8 MiB.
- **A failed append can cost the store.** A write that fails leaves the end of the log where it was, and the next append
  starts there; if its frame is shorter than what the failed one wrote, the end of that stays behind the log. The store
  opens strictly with exactly its acknowledged records if and only if those bytes are none, or read as an unfinished
  frame (`Leftovers.StoreReopens`, `Leftovers.RetryReopensExactly`). A long record of zeros that fails before its digest,
  and then a short one that succeeds, leave a store the strict policy refuses (`Leftovers.RetryRefused`).
- **One side can be shown at two ports.** Double booking is judged at the authority that places the side. Two ports that
  offer it both show it if and only if a detachment ties with or outranks the attachments, or the placing authority
  names one port only, and then one of the two goes by a lower authority (`Sharing.SharedExactly`,
  `Sharing.SharedReached`).
- **Beyond 8 MiB the provenance digest says nothing.** The documentation calls it a digest over the accepted evidence.
  An encoder that passes its ceiling is left empty and is not asked whether it failed, so all larger registries have the
  digest of nothing; below the ceiling the digested bytes are equal if and only if the winning claims are
  (`Fingerprint.DigestExactly`, `Fingerprint.OversizeReached`).
- **A late record stays missing.** The count of missing generations grows when a record skips some and never shrinks:
  over every run it is the distance from the first generation to the highest less the records that advanced it
  (`Tallies.SessionTallied`), so after 1, 3, 2 it says one (`Tallies.LateStaysMissing`).
- **A store that crashed before its first image never gets one.** Open takes a file that holds a header only for an old
  store (`Headless.HeaderOnlyOpens`). Until it is compacted its claims are recovered like any other's, but under the
  identity and opening time of whoever opens it (`Headless.BareRecovers`).
- **A store that crashed while its header was written stays refused** (`StoreFile.TornHeaderRefused`).

## Model

| member | source | states |
|---|---|---|
| `Effects.IngestAt` | src/registry.cpp:1196-1493 | Whatever a record asks for, the key it touches ends as that key's own outcome demands and every other key is untouched, even when one Move touches three |
| `Effects.ApplyAt` | src/registry.cpp:1031-1071 | Applying a staged change resolves every key it covers on its own, in any table, and leaves the rest alone |
| `Effects.OneClaimPerKey` | src/registry.cpp:1353-1493 | A record never makes two different claims for one key |
| `Meaning.SaidExactly` | src/registry.cpp:1353-1493 | What a record claims at every key, written out from its payload: a Detach that names a slot and a Move vacate it, an Attach and a Move fill theirs, and no other key is spoken of |
| `Meaning.RecordMeans` | src/registry.cpp:1684-1774 | What every key holds after a record, from what the record says there and what the key held: the news, the old record with one more in its ring, or what it was |
| `Meaning.AttestedExactly` | src/registry.cpp:1729-1738 | A claim a record wins carries the record's sender, generation, id, times and provenance and the authority of its source |
| `Meaning.TakenExactly` | src/registry.cpp:1196-1682 | A record is taken if and only if it is well shaped, from a known session, clashes with nothing of its generation, exceeds no limit, takes no label another object holds, and can be persisted unless it is no news |
| `Meaning.AnswerExactly` | src/registry.cpp:1093-1115 | How a record that is taken is answered: duplicate, superseded, or news that is fenced, outdated, ahead, dangling or plainly accepted, each if and only if its condition holds |
| `Meaning.RefusalExactly` | src/registry.cpp:1196-1682 | Every refusal, if and only if its reason holds and none before it does |
| `Meaning.AppliedExactly` | src/registry.cpp:1031-1071 | A record changes the tables if and only if it is taken and some key it speaks of did not hold it |
| `Vacancy.SlotVacated` | src/registry.cpp:1378-1383 | After an accepted Detach that names a slot, or a Move away from one, that is news there, the slot holds an empty record of that generation naming the side that left |
| `Vacancy.SlotFilled` | src/registry.cpp:1353-1493 | The slot an Attach or a Move fills holds an occupied record naming the side |
| `Vacancy.FilledShows` | src/registry.cpp:1797-1834 | That slot is live if and only if the sender is unfenced and the object registered, in service and at the incarnation named |
| `Vacancy.VacatedIsEmpty` | src/registry.cpp:1884-1886 | The port of a slot vacated by a sender that counts is Empty afterwards, unless another live slot of it has that authority or a higher one |
| `Tallies.SessionTallied` | src/registry.cpp:1754-1772 | Over every run without a restart a session's counters are its accepted, refused and repeated records modulo 2^64, its mark is the highest generation sent, and the missing count is the distance from the first generation to the mark less the records that advanced it |
| `Tallies.LateStaysMissing` | src/registry.cpp:1754-1759 | After the generations 1, 3, 2 one is counted missing, though none is |
| `Orders.SlotOrder` | src/detail/registry_state.hpp:130-143 | Slots are ordered by owner, then port, then number |
| `Orders.ClaimOrder` | src/registry.cpp:321-334 | Citations are ordered by source, incarnation, generation and evidence id |
| `Orders.AuthorityOrder` | include/cable_registry/authority.hpp:18-45 | A higher class outweighs any rank, and rank decides within a class only |
| `Invariants.IngestOrigin` | src/registry.cpp:1684-1774 | After a record, each key holds what it held before or the claim that record makes for it |
| `Invariants.OtherOwnersUntouched` | src/registry.cpp:980-1071 | A record changes no key of any other source incarnation |
| `Invariants.CatalogueStep` | src/registry.cpp:2543-2560 | Every step keeps sources and sessions consistent: a session's source is known, and its current incarnation is at least the session's |
| `Invariants.RecordsStep` | src/registry.cpp:1729-1738 | Every step keeps each record filed under its own owner and, while that owner is unfenced, at its source's current authority |
| `Invariants.FencingPermanent` | src/registry.cpp:3138-3147 | On every run no source's current incarnation decreases, so a fenced owner is fenced for good |
| `Invariants.OpenEffect` | src/registry.cpp:3105-3210 | A session open touches one source and adds at most one session; a refused one changes nothing |
| `Openings.AcceptedExactly` | src/registry.cpp:3105-3163 | An open is accepted if and only if it is sound, the source is known or there is room, it is not overtaken, does not redescribe the current incarnation, and can be persisted |
| `Openings.RefusedExactly` | src/registry.cpp:3105-3163 | Which refusal an open gets, if and only if for each |
| `Openings.KindExactly` | src/registry.cpp:3163-3210 | Opened, NewIncarnation, Resumed or Reopened, if and only if for each, by what is known of the source and its session |
| `Openings.OpenLeaves` | src/registry.cpp:2543-2560 | An accepted open leaves its descriptor and incarnation current and its session live, opened when it first was, and touches no other source or session |
| `Openings.OpenAgain` | src/registry.cpp:3141-3147 | A known source may open its current incarnation again: resumed while its session lives, reopened otherwise, with no source changed |
| `Openings.ThreeOpens` | src/registry.cpp:3105-3210 | From the empty registry an open, the same again and the same after a restart are Opened, Resumed and Reopened |
| `Openings.CloseLeaves` | src/registry.cpp:3212-3233 | A close that can be persisted marks its own session closed and not live, and touches nothing else |
| `State.PortExistsExactly` | src/registry_state.cpp:373-388 | A port exists if and only if some registration of its endpoint reaches that far |
| `Placement.OccupantClaimed` | src/registry.cpp:1353-1493 | An occupied slot is claimed only together with the side that occupies it, in the same record |
| `Placement.ClaimLands` | src/registry.cpp:910-978 | Where a placement claim of an applied record leaves its key: at the record's generation or beyond |
| `Overflow.PortOverflow` | src/registry.cpp:1391-1417 | A port within its limit is past it after a record if and only if the record is a Move between two fresh slots of it that nothing else refuses and the port was one short; it is then past it by exactly one |
| `Overflow.OverflowReached` | src/registry.cpp:1391-1417 | A run of one open and one Move puts two records on a port that admits one |
| `Bounds.ObjectsGrow` | src/registry.cpp:1298-1302 | A record adds at most the object it registers |
| `Reachable.GoodStep` | src/registry.cpp:1216-1225 | Every step keeps all invariants together: catalogue, records, values, placement, table shape, ring and table sizes |
| `Reachable.GoodRun` | src/registry.cpp:3130-3136 | Every run from a state with the invariants keeps them: objects, endpoints, sources and rings within their limits, ports within limit plus one |
| `Evidence.ReincarnationRange` | src/registry.cpp:123-283 | The shape check admits exactly the targets 2 to 2^32 and, by wrap-around, the largest incarnation, whose target is 0 |
| `Falls.WrappedTarget` | src/registry.cpp:1539-1596 | On a registered object the wrapped target leaves every key's record and the incarnation as they are; before registration it is stored and carries nothing |
| `Falls.WrapReached` | src/registry.cpp:1539-1596 | A run in which that record takes an unregistered object from incarnation two back to one |
| `Falls.WrapOrderMatters` | src/registry.cpp:1585-1596 | That record and a registration leave different records in the two orders, though nothing is refused in either |
| `Falls.OpenLowersExactly` | src/registry_state.cpp:356-371 | A session open never raises an incarnation, and lowers it if and only if it is accepted and everyone who carried it, above one, is an earlier incarnation of that source |
| `Relapse.RelapseReached` | src/registry_state.cpp:356-371 | A run (open, register, reincarnate, open again) in which a registered object goes from incarnation two back to one |
| `Falls.IngestLowersExactly` | src/registry.cpp:1539-1596 | A record lowers an incarnation if and only if the object is unregistered, the incarnation is above one and carried by the record's owner alone, and the record, newer and refused by nothing, names a lower target |
| `Falls.OpenFences` | src/detail/registry_state.hpp:164-170 | An accepted open fences the earlier incarnations of its own source and nobody else |
| `RegistryObject.Registry.constructor` | src/registry.cpp:2927-2963 | A new registry holds the empty state, an index not yet built and an empty audit |
| `RegistryObject.Registry.Ingest` | src/registry.cpp:1684-1774 | On the object: the state and answer are those of the specification in every case, the index stays covering, and the refusal audit keeps the latest refusals within its bound |
| `RegistryObject.Registry.DecideRecord` | src/registry.cpp:1196-1682 | The staged change and answer equal the specification's, reading the claims only |
| `RegistryObject.Registry.Apply` | src/registry.cpp:1031-1071 | Losing claims first, then winning ones, table by table, with the label index kept covering |
| `RegistryObject.Registry.NoteRefusal` | src/registry.cpp:1077-1087 | The audit is the latest refusals, never more than its bound |
| `RegistryObject.Registry.Open` | src/registry.cpp:3105-3210 | A session open answers and changes the state as specified; when stopping it changes nothing |
| `RegistryObject.Registry.Close` | src/registry.cpp:3212-3233 | A session is closed exactly when the registry is running, the session exists and the store accepts the record |
| `RegistryObject.Registry.Load` | src/registry.cpp:2974-2975 | Replacing the state by an image leaves a registry whose index no longer counts |
| `RegistryObject.Registry.Forget` | src/registry_state.cpp:614-643 | Clearing lifetimes in place gives the cleared state, and the label index stays covering |
| `RegistryObject.Registry.RebuildLabelIndex` | src/registry.cpp:885-905 | A rebuilt index covers every label any registration carries |
| `RegistryObject.Registry.CheckLabel` | src/registry.cpp:1267-1296 | The decision and the holder reported through the index equal those of scanning every registration in id order |
| `LabelIndex.IndexIsScan` | src/registry.cpp:1267-1296 | A covering index offers exactly the blockers of a full scan, whatever stale entries it holds |
| `LabelIndex.FoldCovers` | src/registry.cpp:1036-1045 | Folding a registration and indexing its label keeps the index covering |
| `LabelScan.FirstBlocker` | src/registry.cpp:1267-1296 | The pass over the offered holders stops at the lowest id that blocks, or finds none exactly when none does |
| `FoldLoops.FoldSlot` | src/registry.cpp:910-948 | The newer record takes the slot and the loser joins the sorted, trimmed ring, with drops counted in 32 bits |
| `FoldLoops.FoldLosingSlot` | src/registry.cpp:950-978 | A losing record joins the ring of a slot once, and the ring stays sorted and trimmed |
| `FoldLoops.SortAndTrim` | src/registry.cpp:910-978 | Sorting by insertion and dropping from the front leaves exactly the newest entries |
| `ClearLoops.ClearGroups` | src/registry_state.cpp:614-643 | The nested passes clear every record of a table and every entry of its ring, and nothing else |
| `Lookups.ObjectIncarnationOf` | src/registry_state.cpp:356-371 | One pass finds the highest unfenced target, or one |
| `Lookups.CountPorts` | src/registry_state.cpp:373-388 | One pass finds the largest declared port count, fenced or not |
| `Lookups.LifecycleActionOf` | src/registry.cpp:638-748 | The candidate passes and flags give the verdict of the best authority |
| `CatalogueLoops.WinningRecord` | src/registry.cpp:423-459 | One pass finds the registration of highest authority, the lowest owner breaking a tie |
| `CatalogueLoops.PortCapabilityOf` | src/registry.cpp:461-500 | The pass over published capabilities, or the endpoint's default, gives the best capability with the smallest count its equals admit |
| `SubjectLoops.CollectClaims` | src/registry.cpp:365-419 | The passes over a side's records find whether any claim is eligible, the winning authority, its validation and the winning claims in order |
| `SubjectLoops.DeriveSubject` | src/registry.cpp:541-617 | The whole derivation of a side equals its specification, for every state whose records are filed under their owners |
| `PortLoops.DerivePortView` | src/registry.cpp:1783-2002 | The passes over a port's records compute exactly the specified view: state, validation, capability, edges, conflict notes and emptiness claims |
| `PortLoops.Overridden` | src/registry.cpp:1871-1882 | The overridden claims are counted in full and the first of them reported, up to the limit |
| `PortLoops.RecordsFiled` | src/registry.cpp:1729-1738 | In every reachable state each side record is filed under its own owner |
| `Standing.LiveExactly` | src/registry.cpp:1797-1834 | Which slots of a port are live, from the sender, the object and the side's own record |
| `Standing.StateExactly` | src/registry.cpp:1841-2002 | All four answers about a port, if and only if for each, from its leading records: Unknown when none is live, Empty when they are vacancies, Attached when they hold no more sides than admitted and none is double booked, Conflicting otherwise |
| `Standing.EdgesExactly` | src/registry.cpp:1908-1952 | A port shows one edge for each side its leading records name, in order, with their authority, validation, claims and incarnation |
| `Standing.RestExactly` | src/registry.cpp:1841-1870 | A port is validated as far as its leading records are, and cites exactly its vacancies as emptiness claims |
| `Standing.NotesExactly` | src/registry.cpp:1953-1995 | The notes of an occupied port are the mismatches of its edges and the disputes at it, and none is missing |
| `SideStanding.SideStateExactly` | src/registry.cpp:541-617 | All four answers about a side, if and only if for each, from the foremost records that count |
| `SideStanding.PlacedExactly` | src/registry.cpp:541-617 | A placed side shows exactly the ports, authority, claims and slots of the foremost records, and is validated as far as its attachments are |
| `SideStanding.DetachedExactly` | src/registry.cpp:541-617 | A detached side shows no port, the foremost authority, and the validation of its detachments |
| `SideStanding.TornExactly` | src/registry.cpp:541-617 | A side that is both placed and detached at the top shows no port, and either word can validate it |
| `Views.WinnerExactly` | src/registry.cpp:423-459 | An owner wins if and only if no other has a higher authority, or the same and a lower owner |
| `Views.CapabilityExactly` | src/registry.cpp:461-500 | The capability of a port, from the publications, the endpoint's default, or neither |
| `Views.SerialExactly` | src/registry.cpp:2160-2363 | The serial shown is that of the foremost owner who brought the incarnation, or the registered one |
| `Views.ObjectExactly` | src/registry.cpp:2160-2363 | The view of an object: registration, serial, incarnation, capability, how it fares (if and only if for each of seven answers) and every side |
| `Disputes.ObjectNotesExactly` | src/registry.cpp:2160-2363 | A view reports a capability dispute if and only if two leading publications or registrations differ, a lifecycle dispute if and only if the verdict is disputed, citing exactly the records at the peak, and nothing else |
| `Disputes.ObjectValidation` | src/registry.cpp:2160-2363 | An object is validated as far as its recorded sides are |
| `Disputes.SideDescriptorExactly` | src/registry.cpp:502-508 | A side declares what its registration says, and nothing when it has no such side |
| `Disputes.MismatchExactly` | src/registry.cpp:624-636 | A side and a port mismatch only where both declare something and it differs |
| `Answers.SlotBacked` | src/registry.cpp:1816-1834 | A live occupied slot is backed by a live attached record of its side, from the very same evidence, naming that port |
| `Answers.SideExclusive` | src/registry.cpp:541-622 | While attached claims win a side at authority a, two ports that are Attached with an edge for it at a are the same port |
| `Answers.SideExclusiveOnRuns` | src/registry.cpp:1897-1906 | The same in every state any run from the empty registry reaches, under either policy |
| `Sharing.ShownExactly` | src/registry.cpp:1883-1908 | A port shows a side if and only if its own records and other sides offer it and the side is not double booked |
| `Sharing.SharedExactly` | src/registry.cpp:541-622 | Two ports that offer a side both show it if and only if a detachment ties with or outranks its attachments or its placing authority names one port; unless a detachment does, one of the two goes by a lower authority |
| `Sharing.SharedReached` | src/registry.cpp:541-622 | A run in which two sources of different authority have one plug shown Attached at two ports, under either policy |
| `Answers.AttachedJustified` | src/registry.cpp:1841-2001 | Attached means at least one and at most the admitted number of distinct subjects, none double booked, and no emptiness claim at the winning authority |
| `Answers.ConflictJustified` | src/registry.cpp:1953-1995 | Conflicting means some conflict note cites at least two claims |
| `Interference.WeakSourceHarmless` | src/registry.cpp:1353-1493 | An Attach, Detach or Move from a source strictly below a port's winning authority changes nothing of that port's view but its overridden list and count |
| `Interference.SamePortAuthority` | src/registry.cpp:1841-1865 | The winning authority of a port and the slots at it do not depend on a weaker owner |
| `Interference.SameBooking` | src/registry.cpp:619-622 | Whether a side at a port is double booked, and what is cited for it, does not depend on a weaker owner |
| `Congruence.AgreePort` | src/registry.cpp:1783-2002 | States that agree on live records show the same port view, up to what the lens erases |
| `Congruence.AgreeObject` | src/registry.cpp:2160-2363 | States that agree on live records and registrations show the same object view |
| `Fencing.FencingTotal` | src/registry.cpp:423-500 | Deleting every side, port, lifecycle, reincarnation and capability record of fenced owners changes no port view and no object view |
| `Fencing.RegistrationsCount` | src/registry.cpp:423-440 | A registration counts whether or not its owner is fenced |
| `Incarnations.IncarnationNeverFalls` | src/registry_state.cpp:356-371 | For a registered object, over any run in which no open raises an incarnation, the derived incarnation never decreases |
| `Incarnations.OutdatedNeverBinds` | src/registry.cpp:1539-1596 | Over such a run no claim against a past incarnation binds a side or a port again |
| `Incarnations.IncarnationIsHighest` | src/registry.cpp:1539-1596 | If no owner's targets decrease with generation, the incarnation after any deliveries is the maximum of one and every accepted unfenced target |
| `Retirement.RetirementTakesHold` | src/registry.cpp:638-748 | The verdict after a timely retirement, from the state before it: unchanged while another claim outranks it; else Retired if and only if its authority did not bring in the current incarnation or another of its owners holds the object removed or quarantined; else Present |
| `Retirement.TimelyCounts` | src/registry.cpp:1495-1537 | A lifecycle word of any kind counts if and only if it is refused by nothing, newer than what its owner said, made by an unfenced owner, and against the current incarnation |
| `Retirement.ReplacementNotRetired` | src/registry.cpp:737-748 | A run (open, register, reincarnate, retire) whose last record is accepted and whose object stays present |
| `Retirement.RetirementStored` | src/registry.cpp:1495-1537 | A retirement that is accepted or pending is stored, by an unfenced owner, against the current incarnation, and changes no other table |
| `Verdicts.VerdictExactly` | src/registry.cpp:638-748 | The verdict and whether it is disputed, if and only if for each, from what the owners at the peak authority say and bring: Retired prevails over everything but a restoration only a retirement contradicts, Removed over Present, and Quarantined stands alone |
| `Verdicts.OneWord` | src/registry.cpp:727-748 | A single word at the peak, with nothing else said there, is the verdict |
| `Stickiness.WordHolds` | src/registry.cpp:638-748 | A timely word, whatever it says, that nobody of its authority or above contradicts, of an incarnation nobody of that authority or above brought in, holds at once |
| `Stickiness.HeldIsVerdict` | src/registry.cpp:638-748 | A word so held is the verdict, without conflict, at any incarnation |
| `Stickiness.WordSticks` | src/registry.cpp:1495-1537 | Over every run that neither contradicts the word at its authority or above, replaces the object nor takes the word back, and brings no new incarnation of its source or of the one that carries the object's incarnation, it stays the verdict; an object out of service is in no port, and a retired one never causes a label refusal |
| `Stickiness.OutOfService` | src/registry.cpp:1117-1123 | After such a word that the object is quarantined, removed or retired it is excluded, and no port has a live slot for it |
| `Rings.TopUnique` | src/registry.cpp:910-978 | There is exactly one ring of the h newest losers |
| `Rings.DropsCounted` | src/registry.cpp:950-978 | A record that newly loses is in the ring or counted as dropped, modulo 2^32 |
| `Rings.TopAdd` | src/registry.cpp:910-978 | Sorting one more loser in and trimming keeps the ring the h newest losers |
| `Confluence.DeliveryMeaning` | src/registry.cpp:910-978 | After welcome deliveries every key holds its newest record and value, and its ring is exactly the h newest it superseded |
| `Confluence.Confluence` | src/registry.cpp:1031-1071 | Two deliveries of the same well-behaved records, in any order and with any repeats, leave the same winners, values and rings at every key, and the same snapshot |
| `Confluence.HoldsUnique` | src/registry.cpp:287-300 | What a key holds is determined by the delivered records alone, up to receive times, lifetime flags and overflow counts |
| `Provenance.ProvenanceOfEvidence` | src/registry_state.cpp:647-675 | The winning claims and their image depend on the evidence held and on nothing volatile |
| `Provenance.ConfluentProvenance` | src/registry_state.cpp:677-745 | Two such deliveries have the same provenance image, byte for byte |
| `Provenance.RegistriesAgree` | src/registry_state.cpp:677-745 | Two new registries of different identities that open the same sessions and receive the same well-behaved records, each in its own order and with its own repeats, have the same snapshot and the same provenance image |
| `Fingerprint.ImageInjective` | src/registry_state.cpp:677-745 | States whose records can be carried and whose images are equal hold the same winning claim, with the same stamp, at every key |
| `Fingerprint.DigestExactly` | src/registry.cpp:2808-2812 | Two reachable states digest the same bytes if and only if both images exceed 8 MiB, whatever they are of, or neither does and their winning claims are the same |
| `Fingerprint.RunsTold` | src/registry.cpp:2808-2812 | The same of any two runs of new registries |
| `Fingerprint.OversizeReached` | src/codec.cpp:21-28 | From 8 Mi registered objects on, one more changes the winning claims and not what is digested, which is nothing |
| `Snapshot.SnapshotOfEvidence` | src/registry.cpp:2699-2813 | States that differ only in receive times, lifetime flags, overflow counts and session bookkeeping have the same snapshot |
| `Picture.SnapshotTells` | src/registry.cpp:2699-2813 | Equal snapshots of reachable states show the same objects, endpoints, ports, fenced sessions and fenced objects, of each port the same state, capability, edges, notes and citations, and of each object the same registration, incarnation, lifecycle, capability, declared sides and attachments |
| `Picture.PortsShown` | src/registry.cpp:2714-2775 | Every port with a record is listed once, in order, with its own view, edge by edge and note by note |
| `Picture.ObjectsShown` | src/registry.cpp:2709-2747 | Every registered object is listed once, in order, with its own view and all its attachments |
| `Picture.EndpointsShown` | src/registry.cpp:2749-2761 | Every registered endpoint is listed once, in order, with the descriptor that prevails |
| `Picture.SessionsShown` | src/registry.cpp:2777-2788 | Every fenced session is listed once, with who fenced it and its claims |
| `Picture.FencedShown` | src/registry.cpp:2617-2800 | Every object with claims against another incarnation is listed once, with their number |
| `Picture.CountsExactly` | src/registry.cpp:2425-2541 | The fenced and pending counts are the records, with those they superseded, that meet the stated conditions |
| `Snapshot.RestartHidesEverything` | src/registry_state.cpp:614-643 | Clearing lifetimes changes no snapshot, and afterwards every port and side is Unknown under LiveOnly |
| `Crc.MakeTable` | src/digest.cpp:37-47 | The table built in place is the table of eight division steps for every byte |
| `Crc.TableStep` | src/digest.cpp:211-218 | One table lookup does the work of eight bitwise division steps, for every register and byte |
| `Crc.Calculator.Update` | src/digest.cpp:211-218 | The table-driven loop feeds exactly those bytes to the bitwise register |
| `Crc.ComputeInPieces` | src/digest.cpp:211-228 | However a message is cut into updates, the checksum is that of the whole message |
| `Crc.BurstDetected` | src/digest.cpp:211-218 | Damage confined to four adjacent bytes always changes the checksum |
| `Crc.OneByteDetected` | src/digest.cpp:211-218 | Two messages of one length that differ in one byte have different checksums |
| `Sha256.Hasher.Update` | src/digest.cpp:117-148 | An update extends the message held; fewer than 64 bytes stay buffered |
| `Sha256.Hasher.Finish` | src/digest.cpp:154-189 | The digest is the fold of compression over the message padded per section 5.1.1 of FIPS 180-4 |
| `Sha256.Compute` | src/digest.cpp:117-189 | However a message is split into updates, the digest is the hash of the whole |
| `KnownAnswers.ShaOfAbc` | tests/test_foundation.cpp:62-66 | The digest of "abc" is the published one |
| `Sha256.LengthFieldExact` | src/digest.cpp:154-189 | Below 2^61 bytes the length field is the message length in bits |
| `LittleEndian.Digit` | src/codec.cpp:51-104 | Byte i of a written integer is its digit of weight 256^i |
| `Codec.RoundTrip` | src/codec.cpp:51-136 | A lawful codec reads back what it writes exactly when the value is valid |
| `Codec.Canonical` | src/codec.cpp:138-252 | A lawful codec accepts only what it would write |
| `Codec.SelfDelimiting` | src/codec.cpp:138-252 | No proper prefix or extension of an accepted buffer is accepted |
| `Codec.DependLawful` | src/serialization.cpp:328-539 | A value followed by one whose form depends on it inherits the laws |
| `Codec.ListLawful` | src/serialization.cpp:20-39 | A bounded, counted list inherits the laws from its elements |
| `Buffers.Encoder.Append` | src/codec.cpp:21-49 | Bytes are appended, or the failure is latched and the buffer emptied because there was one before or the ceiling would be passed |
| `Buffers.Encoder.Text` | src/codec.cpp:106-136 | A text is written with its length, or the failure is latched and the buffer emptied when it is over its bound |
| `Buffers.Decoder.Take` | src/codec.cpp:138-145 | The cursor moves over exactly the bytes asked for, or not at all when there are too few |
| `Buffers.Decoder.Text` | src/codec.cpp:227-252 | A text is read exactly when its length is within the bound and its bytes are there |
| `EvidenceIo.EncodeEvidence` | src/serialization.cpp:328-403 | The encoder gives the codec's bytes, or fails exactly when a text is over its bound or the ceiling would be passed |
| `EvidenceIo.DecodeEvidence` | src/serialization.cpp:547-559 | The cursor-based decoder accepts exactly what the codec accepts, with nothing left over |
| `EvidenceIo.DecodeKind` | src/serialization.cpp:405-539 | Each payload kind is read as its codec reads it, and an unknown kind is refused |
| `EvidenceIo.ShapedTexts` | src/registry.cpp:123-283 | No text of a well-shaped record stops the encoder |
| `EvidenceCodec.EvidenceAccepts` | src/serialization.cpp:405-539 | The records that survive the codec are exactly those its checks admit |
| `EvidenceCodec.ShapedIsCarried` | src/registry.cpp:123-283 | Every record that passes the shape check is carried |
| `EvidenceCodec.EvidenceRoundTrip` | src/serialization.cpp:547-559 | Decoding undoes encoding on every well-shaped record |
| `EvidenceCodec.EvidenceCanonical` | src/serialization.cpp:328-403 | Encoding undoes decoding on every accepted buffer |
| `EvidenceCodec.EvidenceDelimited` | src/serialization.cpp:547-559 | No proper prefix or extension of an accepted buffer is accepted |
| `MapCodec.CollectEntries` | src/registry_state.cpp:298-352 | Reading the entries of a map written in key order gives the map back |
| `MapCodec.TablePrints` | src/registry_state.cpp:298-352 | The group codec inherits its round trip from the codec of its rows, whatever the key and value types |
| `StateImage.ImageRoundTrip` | src/registry_state.cpp:389-612 | The image of a state of sound records is read back whole exactly when every count is within its reader's bound, and refused otherwise |
| `ImageSize.SmallImage` | src/registry_state.cpp:298-352 | An image of fewer than 2^32 bytes has no count that overflows its field |
| `ImageSize.WrittenImage` | src/registry_state.cpp:389-612 | The same round trip for every image the encoder agrees to write, with no assumption on counts |
| `Images.GoodContents` | src/registry_state.cpp:20-300 | In every reachable state each record is one the image reader accepts |
| `Locality.WrittenAlone` | src/registry_state.cpp:298-352 | A reader that never looks past what it consumes accepts no proper prefix and no proper extension of a written value |
| `ImageLocal.StateLocal` | src/registry_state.cpp:473-612 | Whatever follows an accepted image, the same state is read and the rest is left |
| `ImageLocal.ImageDelimited` | src/registry_state.cpp:389-612 | No proper prefix and no proper extension of an image that can be read back is accepted |
| `Ipc.MessageRoundTrip` | src/ipc/protocol.cpp:180-262 | A frame is read back exactly when its type is known and its payload within the bound |
| `Ipc.MessageCanonical` | src/ipc/protocol.cpp:202-262 | Every accepted buffer is the frame that would be sent for its message |
| `Ipc.DamagedMessage` | src/ipc/protocol.cpp:238-262 | Every one-byte change of a frame is rejected |
| `IpcFrames.EncodeFrame` | src/ipc/protocol.cpp:180-200 | The array filled field by field is the frame; over the bound there is none |
| `IpcFrames.DecodeFrame` | src/ipc/protocol.cpp:202-262 | The checks in order accept exactly the specified frames |
| `Log.ReadBackExactly` | src/persistence.cpp:507-520 | A record Append takes is read back from its frame if and only if the frame length fits 32 bits |
| `Log.ScanOfLog` | src/persistence.cpp:334-429 | The scan of appended records returns exactly those records, consumes every byte and ends on the same chain |
| `Log.LogOfScan` | src/persistence.cpp:334-429 | Whatever prefix the scan accepts is byte for byte what Append would write for its records |
| `Log.CutScan` | src/persistence.cpp:346-372 | The scan of a log cut anywhere gives exactly the whole records before the cut, and a torn tail unless the cut falls between two |
| `Log.DamagedLog` | src/persistence.cpp:334-429 | Changing one byte of record i makes the scan load exactly records 0 to i-1 and stop there, whatever follows |
| `Log.DamagedHeader` | src/persistence.cpp:293-323 | Any one-byte change of the file header is refused |
| `StoreFile.OpenWritten` | src/persistence.cpp:431-476 | A written file opens cleanly with its records and is left as it is |
| `StoreFile.CutIsSafe` | src/persistence.cpp:431-476 | A file cut at or after its header opens, even strictly, with the whole records before the cut, and the truncated file is exactly their log |
| `StoreFile.DamagedRecord` | src/persistence.cpp:431-476 | A damaged record leaves exactly the records before it, or a refusal under the strict policy only |
| `StoreFile.DamagedHeaderRefused` | src/persistence.cpp:293-323 | No file with a damaged header opens |
| `StoreFile.TornHeaderRefused` | src/persistence.cpp:281-323 | A file cut inside its header is refused |
| `StoreFile.AppendedFile` | src/persistence.cpp:491-551 | Appending to a file is appending one frame, chained to all before it |
| `StoreObject.BuildFrame` | src/persistence.cpp:512-530 | The frame buffer filled field by field is the specified frame, and the next chain value its chain step |
| `StoreObject.ReadFrame` | src/persistence.cpp:346-425 | The checks of one turn of the scan, in order, give the specified result |
| `StoreObject.ScanLog` | src/persistence.cpp:334-429 | The loop over the offset computes the specified scan |
| `StoreObject.Store.Append` | src/persistence.cpp:491-551 | A record is appended exactly when the store is open and replayed, the kind is known, the size within the limit and the write succeeds; every write starts at the write offset and covers its own bytes only, so a failed one leaves part of its frame behind an unchanged log, and that is gone after the next append only if its frame is long enough |
| `Leftovers.ReopensExactly` | src/persistence.cpp:334-476 | A log with anything behind it opens strictly if and only if the scan of the rest ends with it or at an unfinished frame, and with exactly the log's records if and only if the rest is empty or an unfinished frame from its first byte on |
| `Leftovers.StoreReopens` | src/persistence.cpp:334-476 | The same of a store object in any state, by what lies behind its write offset |
| `Leftovers.RetryReopensExactly` | src/persistence.cpp:532-545 | After an append that failed at any byte and one that succeeded, the strict policy loads exactly the acknowledged records if and only if the second frame covers the first's bytes or leaves an unfinished frame |
| `Leftovers.RetryRefused` | src/persistence.cpp:431-447 | From any store: a long record of zeros that fails before its digest and a short one that succeeds leave a store the strict policy refuses and the other opens with what was acknowledged |
| `Leftovers.LongFrameRefused` | src/persistence.cpp:507-520 | Where the record limit admits it Append takes a record whose frame length wraps to zero, and the strict policy refuses the store |
| `StoreObject.Store.VisitRecords` | src/persistence.cpp:560-605 | The records are handed over in order up to and including the first the visitor does not accept, once, and only then can the store be appended to |
| `StoreObject.Store.Rewrite` | src/persistence.cpp:607-716 | The file becomes the log of exactly the given records if all are admitted and the rename succeeds; otherwise nothing changes |
| `StoreObject.OpenStore` | src/persistence.cpp:190-476 | Opening a file gives the specified records, truncation and refusals, and a store whose cursors stand at its end |
| `Twins.TwinDecide` | src/registry.cpp:1196-1682 | States equal up to identity, opening time, lifetime flags and session bookkeeping decide every record alike |
| `Twins.TwinIngest` | src/registry.cpp:1684-1774 | Ingesting one record keeps them so, whether live or replayed |
| `Recovery.ReplayEvidence` | src/registry.cpp:3007-3022 | The record persisted for evidence replays as that evidence |
| `Recovery.ReplayImage` | src/registry.cpp:2964-2976 | An image written for a healthy state replays to it exactly when its counts fit, and stops the replay otherwise |
| `Recovery.ImageSizes` | src/registry.cpp:3547-3572 | Clearing lifetimes for an image changes no count |
| `Durability.ActSturdy` | src/registry.cpp:1127-1139 | Every operation without an I/O error keeps the log a full account of the memory: replaying it from any start gives a twin |
| `Durability.BootSturdy` | src/registry.cpp:3057-3072 | A new store's first image already is such an account |
| `Durability.CrashedFile` | src/persistence.cpp:607-716 | A crash in an append or a rewrite leaves a file that opens as the log before or the log after |
| `Durability.RecoveryEquivalence` | src/registry.cpp:2964-3030 | After any such run, a crash at any byte of the next operation and an Open, strict or not, rebuild exactly the claims and sources of the last acknowledged operation, or of that and the one in flight, on a file truncated to exactly that log, and the registry is again as sturdy |
| `Durability.NewStoreRecovers` | src/registry.cpp:3057-3072 | The same for every run of a new store, from its first image on |
| `Headless.HeaderOnlyOpens` | src/persistence.cpp:334-476 | A file that holds a header only opens with no records, is left as it is, and recovers whatever the process starts with |
| `Headless.BareAct` | src/registry.cpp:1127-1139 | Over a store without an image every operation but a compaction keeps the log a full account of the memory from an empty start, and a readable compaction makes the store sturdy |
| `Headless.BareRecovers` | src/registry.cpp:3048-3072 | After any run over such a store without a compaction, a crash at any byte of the next operation and an Open rebuild the last acknowledged claims and sources, or those and the one in flight, under the identity and opening time of the process that opens it |
| `Headless.HeadlessRecovers` | src/registry.cpp:3048-3072 | The same from a file that holds a header only |
| `Durability.CompactionExactly` | src/registry.cpp:3547-3572 | A compacted store opens again if and only if no count of the memory exceeds its reader's bound |
| `Stranding.CompactionStrands` | src/registry.cpp:3547-3572 | Four operations of one source on a new store leave one that every Open accepts; its compaction succeeds, and no Open, strict or not, accepts it again |

## Left out

- `StoreObject.Store.Append`: asks that a record within the size limit fit a 32-bit frame length and that 64-bit sequence numbers last; beyond that `Log.ReadBackExactly` says what happens.
- `StoreObject.Store.Rewrite`: asks the same; the temporary file and the rename are one step, as they are for a crash in `Durability.CrashedFile`.
- `StoreObject.OpenStore`: files shorter than 2^64 bytes, the range of the source's own file sizes.
- `Confluence.Confluence`: receive times, lifetime flags and the count of dropped ring entries may differ between deliveries; reincarnation targets must be at least 2, which shuts out the wrapped target only (`Falls.WrapOrderMatters` shows why).
- `Snapshot.SnapshotOfEvidence`: the snapshot is a value; its canonical byte form, its digest and the decoder are not modelled. Of the summary it holds the fenced and pending counts; the conflict notes of each object are counted apart where the source adds them up (`Picture.SnapshotTells` makes no use of that), and the other totals follow from the lists.
- `SubjectLoops.DeriveSubject`: the slots of an object view are in the order of their owners while its ports are sorted, as in the source; nothing is claimed about how they pair up.
- `StateImage.ImageRoundTrip`: the state image, like the provenance image, is a codec, not a loop over a buffer; the loops over buffers are modelled for evidence only. The image reader keeps the first of two equal keys, so not every accepted image is the one that would be written.
- Equal ranks under std::sort are kept in their order; the source leaves the order of ties open.
- Limits are taken as validated at Open: at least one claim per port, and a ring no longer than its bound.
- The check that the store belongs to the registry that was asked for.
- Session counters, `closed` and `opened_at` are not claimed to survive recovery.
- Sockets, threads, locks, the file system beneath a byte sequence, clocks and random ids: inputs or atomic steps.
- History, statistics, rendering, detail strings and the wire form of query views.
