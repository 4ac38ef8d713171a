# Project Earth server: inventory ledger and buildplate lists

A Dafny model of two document-mutation utilities of the Project Earth API
server.

`InventoryUtils` keeps a player's inventory document. The document holds:

- stackable entries, each an item id with an `owned` count;
- non-stackable entries, each an item id with its instances;
- the hotbar, a fixed-length array of equip slots.

It offers these routines:

- adding and removing items;
- reading an item's count;
- reading an instance's health;
- `EditHotbar`, which diffs the stored hotbar against a proposed one, issues one add or remove call per changed slot, except the last slot, which is never examined, and then installs the proposed hotbar.

`BuildplateUtils` keeps three things:

- the buildplate folder;
- each player's unlock list of buildplate ids, with the most recently used first;
- the folder of shared snapshots.

It offers these routines:

- unlocking a buildplate;
- cloning a template buildplate for a player;
- promoting a buildplate to the front of the list after an update;
- building the list of buildplates, which clones every template;
- sharing a buildplate as a snapshot with a reference string.

Files:

- `common.dfy`: shared vocabulary (module `Common`):
  - C#'s 32-bit `int` with explicit wrap-around;
  - `List<T>.IndexOf` as a first-match lookup;
  - optional values.
- `inventory_utils.dfy` (module `InventoryUtils`):
  - each routine as a function on an `Inventory` value, which the lemmas reason about;
  - class `InventoryStore`: the stored document, whose methods update its fields in place and are proved equal to those functions.
- `buildplate_utils.dfy` (module `BuildplateUtils`):
  - the list primitives;
  - the clone, promotion, listing and share functions and their lemmas;
  - class `BuildplateStore`: the buildplate folder as a map, one player's unlock list as a sequence and the shared folder as a map.

Reading and writing JSON files becomes reading and assigning those fields.
The player id is dropped: one store object stands for one player's files.
Fresh GUIDs are parameters, with preconditions that say they are unused.

## Model

| member | source | states |
|---|---|---|
| Common.IndexOf | ProjectEarthServerAPI/Util/BuildplateUtils.cs:73 | `List.IndexOf` gives the first position holding the id, or -1 exactly when the id is absent |
| InventoryUtils.FindStackable | ProjectEarthServerAPI/Util/InventoryUtils.cs:25 | `Find` over stackable entries returns the first entry with the id; -1 iff none has it |
| InventoryUtils.FindNonStackable | ProjectEarthServerAPI/Util/InventoryUtils.cs:42 | `Find` over non-stackable entries returns the first entry with the id; -1 iff none has it |
| InventoryUtils.FindInstance | ProjectEarthServerAPI/Util/InventoryUtils.cs:45 | `Find` over instances returns the first instance with the id; a null id matches none |
| InventoryUtils.RemoveInstance | ProjectEarthServerAPI/Util/InventoryUtils.cs:45-46 | removes exactly the first matching instance and keeps the others in order (as a multiset, one fewer of it); no match leaves the instances as they were |
| InventoryUtils.RemoveItem | ProjectEarthServerAPI/Util/InventoryUtils.cs:20-55 | stackable match with count above owned: `NotEnoughItemsAvailable`, inventory unchanged; otherwise Success, only that entry's `owned` changes, by exactly `-count` (wrapping); the stackable lookup wins over the non-stackable one; non-stackable match: Success, only that entry's instances change, losing the first matching instance; `ItemNotFoundInInv` iff the id is in neither list, and then nothing changes |
| InventoryUtils.AddItem | ProjectEarthServerAPI/Util/InventoryUtils.cs:79-127 | always Success; stackable: existing entry `owned += count` (wrapping), else exactly one entry appended with `owned = count`, `fragments = 1`; non-stackable: appends instance `(instanceId, 100)` only when the entry exists and the instance id is non-null, otherwise changes nothing |
| InventoryUtils.GetItemCount | ProjectEarthServerAPI/Util/InventoryUtils.cs:57-77 | `(Success, owned)` for the first stackable entry, `(Success, 1)` for a non-stackable-only id, `(ItemNotFoundInInv, 0)` iff the id is in neither list |
| InventoryUtils.EditHealthOfItem | ProjectEarthServerAPI/Util/InventoryUtils.cs:137-151 | Success iff the first entry with the id has an instance with that instance id, returning that instance's stored health; otherwise `(UnstackableItemInstanceNotFound, 0)`; the new health is never applied |
| InventoryUtils.SlotCall | ProjectEarthServerAPI/Util/InventoryUtils.cs:165-191 | no call iff id and count match; emptying a slot adds its count back (stackable) or its instance (non-stackable); filling a changed slot removes `new.count - old.count` of the new item when the old slot was occupied, else `new.count` |
| InventoryUtils.ApplyCall | ProjectEarthServerAPI/Util/InventoryUtils.cs:171-189 | a slot's ledger call never touches the hotbar, and no call leaves the inventory unchanged |
| InventoryUtils.Examined | ProjectEarthServerAPI/Util/InventoryUtils.cs:163 | the loop examines `Length - 1` slots of a non-empty hotbar |
| InventoryUtils.EditedInventory | ProjectEarthServerAPI/Util/InventoryUtils.cs:194-197 | the stored hotbar becomes the proposed hotbar exactly |
| InventoryUtils.InventoryStore.RemoveItemFromInv | ProjectEarthServerAPI/Util/InventoryUtils.cs:20-55 | the in-place update returns and writes what `RemoveItem` specifies |
| InventoryUtils.InventoryStore.AddItemToInv | ProjectEarthServerAPI/Util/InventoryUtils.cs:79-127 | the in-place update returns and writes what `AddItem` specifies |
| InventoryUtils.InventoryStore.ReconcileSlot | ProjectEarthServerAPI/Util/InventoryUtils.cs:165-192 | one loop iteration writes what that slot's call specifies; its result is ignored |
| InventoryUtils.InventoryStore.EditHotbar | ProjectEarthServerAPI/Util/InventoryUtils.cs:159-200 | Success and the proposed hotbar are returned whatever the calls returned; the document becomes every examined slot's call applied in slot order, then the new hotbar |
| InventoryUtils.AddThenRemoveRestores | ProjectEarthServerAPI/Util/InventoryUtils.cs:34-105 | adding then removing the same stackable count restores the inventory whenever the removal succeeds; it succeeds when owned is non-negative and the sum fits an int |
| InventoryUtils.RemoveThenAddRestores | ProjectEarthServerAPI/Util/InventoryUtils.cs:34-105 | removing `0 <= count <= owned` succeeds, and adding it back restores the inventory |
| InventoryUtils.MatchingSlotsChangeNothing | ProjectEarthServerAPI/Util/InventoryUtils.cs:165 | slots with equal id and count cause no inventory change |
| InventoryUtils.EditHotbarUnchangedIsNoOp | ProjectEarthServerAPI/Util/InventoryUtils.cs:163-197 | resubmitting the stored hotbar leaves the inventory as it is |
| InventoryUtils.ApplySlotsDependsOnPrefix | ProjectEarthServerAPI/Util/InventoryUtils.cs:163-193 | the calls for slots `0..n-1` depend only on those slots of the proposed hotbar |
| InventoryUtils.LastSlotNeverExamined | ProjectEarthServerAPI/Util/InventoryUtils.cs:163 | proposed hotbars differing only in the last slot lead to the same items |
| InventoryUtils.LastSlotChangeMovesNoItems | ProjectEarthServerAPI/Util/InventoryUtils.cs:163 | a change confined to the last slot moves no items; only the hotbar is replaced |
| InventoryUtils.EquipIntoEmptySlotTakesCount | ProjectEarthServerAPI/Util/InventoryUtils.cs:186-190 | filling an empty slot with `count` of an owned stackable item takes exactly `count` from that entry and nothing else |
| InventoryUtils.ShrinkingSlotReturnsDifference | ProjectEarthServerAPI/Util/InventoryUtils.cs:181-185 | lowering a slot's count removes a negative delta, which increases `owned` by the difference |
| InventoryUtils.ClearingSlotReturnsCount | ProjectEarthServerAPI/Util/InventoryUtils.cs:167-173 | emptying a stackable slot adds its count back to the entry |
| InventoryUtils.ClearingSlotReturnsInstance | ProjectEarthServerAPI/Util/InventoryUtils.cs:174-177 | emptying an instance slot re-adds that instance with health 100 to its entry |
| BuildplateUtils.ListRemove | ProjectEarthServerAPI/Util/BuildplateUtils.cs:74 | `List.Remove` drops the first occurrence and shifts the rest down; no occurrence leaves the list unchanged |
| BuildplateUtils.ListInsert | ProjectEarthServerAPI/Util/BuildplateUtils.cs:75 | `List.Insert` fails iff the index is outside `0..Count`; otherwise the element lands at the index and the others keep their order around it |
| BuildplateUtils.ReplaceFirst | ProjectEarthServerAPI/Util/BuildplateUtils.cs:73-75 | IndexOf, Remove and Insert at the template id put the clone id at the first occurrence's position, length and all other positions unchanged |
| BuildplateUtils.ReplaceFirstKeepsUnique | ProjectEarthServerAPI/Util/BuildplateUtils.cs:73-75 | replacing a template by a fresh clone keeps a duplicate-free list duplicate-free, drops the template and lists the clone |
| BuildplateUtils.AddIfAbsent | ProjectEarthServerAPI/Util/BuildplateUtils.cs:57-58 | the id is listed afterwards; a listed id changes nothing; otherwise it is appended at the end |
| BuildplateUtils.AddIfAbsentIdempotent | ProjectEarthServerAPI/Util/BuildplateUtils.cs:53-61 | unlocking twice equals unlocking once, and no unlocked id is lost |
| BuildplateUtils.Cloned | ProjectEarthServerAPI/Util/BuildplateUtils.cs:65-68 | a clone has the fresh id, is unlocked, and agrees with the template in every other field |
| BuildplateUtils.ListAfterCloneAsWritten | ProjectEarthServerAPI/Util/BuildplateUtils.cs:64-77 | as written, the list update throws iff the list read lacks the clone id, and otherwise leaves the list exactly as read |
| BuildplateUtils.CloneAsWrittenKeepsTemplate | ProjectEarthServerAPI/Util/BuildplateUtils.cs:66-75 | as written, the template's position never receives the clone id, while the intended replacement would put it there |
| BuildplateUtils.ListedEntry | ProjectEarthServerAPI/Util/BuildplateUtils.cs:30-31 | a non-template is listed as stored; a template is listed as its clone, numbered by position, keeping the template id as `templateId` |
| BuildplateUtils.ListedEntriesAt | ProjectEarthServerAPI/Util/BuildplateUtils.cs:25-33 | one entry per enumerated buildplate, in enumeration order: the `j`-th is `ListedEntry` of the `j`-th buildplate at position `j`, so a template's clone is numbered `j` and a non-template keeps its stored order |
| BuildplateUtils.MoveToFront | ProjectEarthServerAPI/Util/BuildplateUtils.cs:96-101 | index 0 holds the id, old indices `0..k-1` move to `1..k`, later indices stay, length is kept |
| BuildplateUtils.PromoteToFront | ProjectEarthServerAPI/Util/BuildplateUtils.cs:96-101 | the downward shifting loop computes `MoveToFront` |
| BuildplateUtils.MoveToFrontKeepsOthersInOrder | ProjectEarthServerAPI/Util/BuildplateUtils.cs:96-101 | promoting a listed id keeps the relative order of all other ids |
| BuildplateUtils.MoveToFrontIsPermutation | ProjectEarthServerAPI/Util/BuildplateUtils.cs:96-101 | promoting a listed id permutes the list |
| BuildplateUtils.MoveToFrontKeepsUnique | ProjectEarthServerAPI/Util/BuildplateUtils.cs:96-101 | promotion of any id keeps a duplicate-free list duplicate-free |
| BuildplateUtils.MoveToFrontEdgeCases | ProjectEarthServerAPI/Util/BuildplateUtils.cs:96-101 | promoting the id at index 0 changes nothing; an absent id overwrites index 0 |
| BuildplateUtils.MoveToFrontExample | ProjectEarthServerAPI/Util/BuildplateUtils.cs:96-101 | `[A, B, C]` promoting C gives `[C, A, B]` |
| BuildplateUtils.WithDefaultETag | ProjectEarthServerAPI/Util/BuildplateUtils.cs:91 | the eTag is set to the default only when missing; every other field, and an existing eTag, is kept |
| BuildplateUtils.Snapshot | ProjectEarthServerAPI/Util/BuildplateUtils.cs:110-118 | a snapshot copies blocksPerMeter, dimension, model, offset, order and surfaceOrientation and has type "Survival" |
| BuildplateUtils.SnapshotOfCloneIsTemplates | ProjectEarthServerAPI/Util/BuildplateUtils.cs:110-118 | a clone, and a buildplate with a defaulted eTag, share exactly as the original does |
| BuildplateUtils.ShareReference | ProjectEarthServerAPI/Util/BuildplateUtils.cs:129 | the reference is `minecraftearth://sharedbuildplate?id=` followed by the share id |
| BuildplateUtils.ShareReferenceIdentifiesShare | ProjectEarthServerAPI/Util/BuildplateUtils.cs:129 | distinct share ids give distinct references |
| BuildplateUtils.BuildplateStore.AddToPlayer | ProjectEarthServerAPI/Util/BuildplateUtils.cs:53-61 | the unlock list becomes `AddIfAbsent` of it; nothing else changes |
| BuildplateUtils.BuildplateStore.CloneTemplateBuildplate | ProjectEarthServerAPI/Util/BuildplateUtils.cs:63-80 | with the template id taken before renaming: stores the clone under the fresh id and puts the clone id in the template's first position |
| BuildplateUtils.BuildplateStore.ListStep | ProjectEarthServerAPI/Util/BuildplateUtils.cs:28-32 | one iteration lists the entry `ListedEntry` gives, cloning a template first through the corrected clone update |
| BuildplateUtils.BuildplateStore.GetBuildplatesList | ProjectEarthServerAPI/Util/BuildplateUtils.cs:19-36 | one entry per enumerated buildplate in enumeration order, templates cloned and numbered by position; each template's clone stored; with the corrected clone update, each template id replaced by its clone's in the unlock list |
| BuildplateUtils.BuildplateStore.UpdateBuildplateAndList | ProjectEarthServerAPI/Util/BuildplateUtils.cs:89-104 | stores the buildplate with a defaulted eTag; a non-empty unlock list becomes `MoveToFront` of it; an empty one makes the routine fail after the write |
| BuildplateUtils.BuildplateStore.ShareBuildplate | ProjectEarthServerAPI/Util/BuildplateUtils.cs:106-132 | stores the snapshot as shared by "Unknown user" with the given inventory view under the fresh share id, and returns its reference |

## Left out

- JSON files, directories and Newtonsoft serialisation are left out. Each read or write of a document is a read or assignment of a store field, and `ReadBuildplate` and `WriteBuildplate` are a map lookup and update.
- `ReadPlayerBuildplateList` appends every id in the buildplate folder to the list it parses. The model's unlock list stands for the list that read returns, so the append is not modelled.
- `Directory.EnumerateFiles` order is the `ids` parameter of `GetBuildplatesList`. Whether the enumeration would also see the clone files written during the loop is not modelled.
- Timestamps (`seen.on`, `unlocked.on`, `lastUpdated`, `sharedOn`) are left out because they are nondeterministic.
- `TokenUtils.AddItemToken`, `JournalUtils.AddActivityLogEntry`, `Console.WriteLine` and `Log.Error` are left out: they are foreign side effects with no contract here.
- `InventoryUtils.GetHotbarForSharing` is not part of this model. `ShareBuildplate` takes the inventory view it would return as a parameter.
- `Guid.NewGuid` and `Version4Generator` are left out. Fresh ids are parameters, required to be unused in the store and the unlock list.
- The `NoSpecificError` results of the `catch` blocks are not modelled. They fire on an exception from reading or writing the document, or from the foreign `TokenUtils.AddItemToken` call that `AddItemToInv` makes after its write; neither is modelled.
- Concurrent requests are not modelled. The source does an unlocked read-modify-write, so lost updates between requests are out of scope.
- Instance health is a `real` that is only carried, never computed on. C#'s `double` is not modelled.
- `InventoryUtils.InventoryStore.EditHotbar` requires the proposed hotbar to have at least `Length - 1` slots. With fewer, the source throws an uncaught index exception, and that path is not modelled.
- A hotbar slot whose instance-id object exists but carries a null id is not modelled. The slot's instance id is either absent or a string.
- A stored instance with a null id is not modelled: stored instance ids are strings. In the source, `Find` with a null instance id would match such an instance when removing an item or reading its health; in the model a null instance id matches nothing.
- `BuildplateUtils.BuildplateStore.ShareBuildplate` requires the buildplate to exist. For a missing buildplate, `ReadBuildplate` returns null and the source throws a null-reference exception while building the snapshot; that path is not modelled.
- The player id is not modelled. One store stands for one player's documents.
- `GetBuildplateById` and `ReadSharedBuildplate` are not modelled beyond a map lookup.
- Buildplate fields outside the listed ones are not modelled.
- `BuildplateUtils.BuildplateStore.CloneTemplateBuildplate`: the method models the evidently intended update (see Findings), not the code as written. The as-written behaviour is `BuildplateUtils.ListAfterCloneAsWritten`.
- `BuildplateUtils.BuildplateStore.GetBuildplatesList`: its unlock-list effect uses the corrected clone update, so each template id is replaced by its clone's id. As written, the source's clone call leaves the list as it was read, with the template still listed (see Findings). The listed entries and the stored clones are as the source produces them.
- `BuildplateUtils.BuildplateStore.ListStep`: like `GetBuildplatesList`, its unlock-list effect is the corrected clone update, not the as-written one.

## Findings

| source | as written | input that shows it | evidently intended | confidence | as-written member | corrected member |
|---|---|---|---|---|---|---|
| ProjectEarthServerAPI/Util/BuildplateUtils.cs:66-75 | `clonedBuildplate = templateBuildplate` copies the reference, so after `clonedBuildplate.id = clonedId` the expression `templateBuildplate.id` reads the clone id. `IndexOf`, `Remove` and `Insert` therefore look up the clone id, not the template id. | Unlock list `[T]` with template T and clone id C. `IndexOf(C)` is -1, `Remove(C)` does nothing and `Insert(-1, C)` throws. The list read also contains every folder id, including the clone file just written. In that case the clone id is found and put back where it was, and T stays listed. | The template's first position receives the clone id: `[T]` becomes `[C]`. | not executed | BuildplateUtils.CloneAsWrittenKeepsTemplate | BuildplateUtils.BuildplateStore.CloneTemplateBuildplate |
