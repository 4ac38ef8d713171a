/** The buildplate catalogue and sharing of `BuildplateUtils`.

    The buildplate folder is a map from buildplate id to its document; a
    player's unlock list is an ordered sequence of buildplate ids (index 0 is
    the most recently used); shared snapshots are kept in a map from share id.
    A buildplate whose id equals its template id is a template; it stays in the
    folder and is cloned again, under a new id, every time the list of
    buildplates is built. */
module BuildplateUtils {
  import opened Common
  import InventoryUtils

  /** Geometry and model fields are carried as their serialised text, never inspected. */
  type Blob = string

  /** A stored buildplate; its `lastUpdated` timestamp is not modelled. */
  datatype BuildplateData = BuildplateData(
    id: Guid,
    templateId: Guid,
    locked: bool,
    order: int,
    blocksPerMeter: int,
    dimension: Blob,
    model: Blob,
    offset: Blob,
    surfaceOrientation: string,
    eTag: Option<string>)

  /** The buildplate part of a shared snapshot; `kind` is the `type` field. */
  datatype SharedBuildplateData = SharedBuildplateData(
    blocksPerMeter: int,
    dimension: Blob,
    model: Blob,
    offset: Blob,
    order: int,
    surfaceOrientation: string,
    kind: string)

  /** A stored share: who shared, the snapshot and the sharer's inventory
      view; its `sharedOn` timestamp is not modelled. */
  datatype SharedBuildplateInfo = SharedBuildplateInfo(
    playerId: string,
    buildplateData: SharedBuildplateData,
    inventory: InventoryUtils.Inventory)

  /** The eTag written when a buildplate has none. */
  const DefaultETag: string := "\"0xAAAAAAAAAAAAAAA\""

  /** Every share reference is this text followed by the share id. */
  const SharedBuildplatePrefix: string := "minecraftearth://sharedbuildplate?id="

  const SurvivalType: string := "Survival"
  const UnknownUser: string := "Unknown user"

  predicate IsTemplate(bp: BuildplateData) {
    bp.id == bp.templateId
  }

  // ---------------------------------------------------------------------
  // List<Guid> primitives
  // ---------------------------------------------------------------------

  /** `List<T>.Remove`: drops the first occurrence of `x`, if any. */
  function ListRemove(list: seq<Guid>, x: Guid): (r: seq<Guid>)
    ensures var k := IndexOf(list, x);
            if k < 0 then r == list
            else |r| == |list| - 1
                 && (forall j :: 0 <= j < k ==> r[j] == list[j])
                 && (forall j :: k <= j < |r| ==> r[j] == list[j + 1])
  {
    var k := IndexOf(list, x);
    if k < 0 then list else list[..k] + list[k + 1..]
  }

  /** `List<T>.Insert`: `None` when the index is out of range (the source then
      throws `ArgumentOutOfRangeException`). */
  function ListInsert(list: seq<Guid>, index: int, x: Guid): (r: Option<seq<Guid>>)
    ensures r.Some? <==> 0 <= index <= |list|
    ensures r.Some? ==>
              |r.value| == |list| + 1 && r.value[index] == x
              && (forall j :: 0 <= j < index ==> r.value[j] == list[j])
              && (forall j :: index < j < |r.value| ==> r.value[j] == list[j - 1])
  {
    if 0 <= index <= |list| then Some(list[..index] + [x] + list[index..]) else None
  }

  /** Removing the first occurrence of `target` and inserting `replacement` at
      its index puts `replacement` in `target`'s place. */
  function ReplaceFirst(list: seq<Guid>, target: Guid, replacement: Guid): (r: seq<Guid>)
    requires target in list
    ensures r == list[IndexOf(list, target) := replacement]
    ensures forall x :: x in list && x != target ==> x in r
    ensures forall x :: x in r ==> x in list || x == replacement
  {
    var k := IndexOf(list, target);
    var inserted := ListInsert(ListRemove(list, target), k, replacement);
    assert inserted.value == list[k := replacement];
    inserted.value
  }

  /** `AddToPlayer`'s list: `id` appended unless already present. */
  function AddIfAbsent(list: seq<Guid>, id: Guid): (r: seq<Guid>)
    ensures id in r
    ensures id in list ==> r == list
    ensures list <= r && |r| <= |list| + 1
  {
    if id in list then list else list + [id]
  }

  /** Unlocking is idempotent: unlocking the same id twice is unlocking it once. */
  lemma AddIfAbsentIdempotent(list: seq<Guid>, id: Guid)
    ensures AddIfAbsent(AddIfAbsent(list, id), id) == AddIfAbsent(list, id)
    ensures forall x :: x in list ==> x in AddIfAbsent(list, id)
  {
  }

  // ---------------------------------------------------------------------
  // Template cloning
  // ---------------------------------------------------------------------

  /** The clone of `template`: the fresh id, unlocked, every other field the template's. */
  function Cloned(template: BuildplateData, clonedId: Guid): (c: BuildplateData)
    ensures c.id == clonedId && !c.locked
    ensures c.(id := template.id, locked := template.locked) == template
  {
    template.(id := clonedId, locked := false)
  }

  /** The unlock list `CloneTemplateBuildplate` writes, AS WRITTEN: the clone is
      the template object itself, so by the time the list is updated the
      template's id reads as the clone id, and the lookup, removal and
      re-insertion all use the clone id. `None` is the exception `Insert(-1)`
      throws when the list read does not hold the clone id. */
  function ListAfterCloneAsWritten(read: seq<Guid>, template: BuildplateData, clonedId: Guid)
    : (r: Option<seq<Guid>>)
    ensures r.None? <==> clonedId !in read
    ensures r.Some? ==> r.value == read
  {
    var clone := Cloned(template, clonedId);
    var lookedUp := clone.id;  // templateBuildplate.id, read after the alias was renamed
    var index := IndexOf(read, lookedUp);
    var r := ListInsert(ListRemove(read, lookedUp), index, clonedId);
    assert r.Some? ==> r.value == read[index := clonedId];
    r
  }

  /** As written, the template's position never receives the clone: either the
      call throws or the template id stays where it was. */
  lemma CloneAsWrittenKeepsTemplate(read: seq<Guid>, template: BuildplateData, clonedId: Guid)
    requires template.id in read && clonedId != template.id
    ensures var r := ListAfterCloneAsWritten(read, template, clonedId);
            r.None? || (r.value[IndexOf(read, template.id)] == template.id)
    ensures ListAfterCloneAsWritten([template.id], template, clonedId) == None
    ensures ReplaceFirst([template.id], template.id, clonedId) == [clonedId]
  {
  }

  /** The entry the list of buildplates yields at `position` for the stored
      buildplate `bp`: a template becomes its clone, numbered by position;
      anything else is returned as stored. */
  function ListedEntry(bp: BuildplateData, position: int, cloneId: Guid): (e: BuildplateData)
    ensures !IsTemplate(bp) ==> e == bp
    ensures IsTemplate(bp) ==>
              && e.id == cloneId && !e.locked && e.order == position && e.templateId == bp.id
              && e.(id := bp.id, locked := bp.locked, order := bp.order) == bp
  {
    if IsTemplate(bp) then Cloned(bp.(order := position), cloneId) else bp
  }

  /** The buildplate folder after the first `n` enumerated buildplates were listed. */
  function StoreAfter(store: map<Guid, BuildplateData>, ids: seq<Guid>, cloneIds: seq<Guid>, n: nat)
    : map<Guid, BuildplateData>
    requires n <= |ids| == |cloneIds|
    requires forall j :: 0 <= j < |ids| ==> ids[j] in store
  {
    if n == 0 then store
    else
      var before := StoreAfter(store, ids, cloneIds, n - 1);
      var bp := store[ids[n - 1]];
      if IsTemplate(bp) then before[cloneIds[n - 1] := ListedEntry(bp, n - 1, cloneIds[n - 1])]
      else before
  }

  /** The entries listed for the first `n` enumerated buildplates. */
  function ListedEntries(store: map<Guid, BuildplateData>, ids: seq<Guid>, cloneIds: seq<Guid>, n: nat)
    : seq<BuildplateData>
    requires n <= |ids| == |cloneIds|
    requires forall j :: 0 <= j < |ids| ==> ids[j] in store
  {
    if n == 0 then []
    else ListedEntries(store, ids, cloneIds, n - 1) + [ListedEntry(store[ids[n - 1]], n - 1, cloneIds[n - 1])]
  }

  /** One entry per enumerated buildplate, in enumeration order, numbered by position. */
  lemma {:induction false} ListedEntriesAt(store: map<Guid, BuildplateData>, ids: seq<Guid>, cloneIds: seq<Guid>, n: nat)
    requires n <= |ids| == |cloneIds|
    requires forall j :: 0 <= j < |ids| ==> ids[j] in store
    ensures |ListedEntries(store, ids, cloneIds, n)| == n
    ensures forall j :: 0 <= j < n ==>
              ListedEntries(store, ids, cloneIds, n)[j] == ListedEntry(store[ids[j]], j, cloneIds[j])
  {
    if n > 0 {
      ListedEntriesAt(store, ids, cloneIds, n - 1);
    }
  }

  /** The unlock list after the first `n` enumerated buildplates were listed:
      each template's id replaced by its clone's. */
  function UnlockedAfter(list: seq<Guid>, store: map<Guid, BuildplateData>, ids: seq<Guid>, cloneIds: seq<Guid>, n: nat)
    : seq<Guid>
    requires n <= |ids| == |cloneIds|
    requires forall j :: 0 <= j < |ids| ==> ids[j] in store
  {
    if n == 0 then list
    else
      var before := UnlockedAfter(list, store, ids, cloneIds, n - 1);
      var bp := store[ids[n - 1]];
      if IsTemplate(bp) && bp.id in before then ReplaceFirst(before, bp.id, cloneIds[n - 1])
      else before
  }

  /** Replacing a template by a fresh clone keeps an unlock list free of
      duplicates, removes the template and lists the clone exactly once. */
  lemma ReplaceFirstKeepsUnique(list: seq<Guid>, target: Guid, replacement: Guid)
    requires target in list && replacement !in list && NoDuplicates(list)
    ensures var r := ReplaceFirst(list, target, replacement);
            NoDuplicates(r) && target !in r && replacement in r && |r| == |list|
  {
    var k := IndexOf(list, target);
    var r := ReplaceFirst(list, target, replacement);
    forall i, j | 0 <= i < j < |r| ensures r[i] != r[j] {
      if i != k && j != k {
        assert r[i] == list[i] && r[j] == list[j];
      } else if i == k {
        assert r[j] == list[j];
      } else {
        assert r[i] == list[i];
      }
    }
  }

  // ---------------------------------------------------------------------
  // Most-recently-used promotion (`UpdateBuildplateAndList`)
  // ---------------------------------------------------------------------

  /** The unlock list with `id` promoted to index 0: the entries before its
      first occurrence move back by one, those after it stay. An absent id
      overwrites index 0. */
  function MoveToFront(list: seq<Guid>, id: Guid): (r: seq<Guid>)
    requires |list| > 0
    ensures |r| == |list| && r[0] == id
    ensures forall j :: 0 < j < |list| ==>
              r[j] == if j <= IndexOf(list, id) then list[j - 1] else list[j]
  {
    var k := IndexOf(list, id);
    if k < 0 then list[0 := id] else [id] + list[..k] + list[k + 1..]
  }

  /** The source's downward shifting loop computes `MoveToFront`. */
  method PromoteToFront(list: seq<Guid>, id: Guid) returns (r: seq<Guid>)
    requires |list| > 0
    ensures r == MoveToFront(list, id)
  {
    var k := IndexOf(list, id);
    r := list;
    var i := k;
    while i > 0
      invariant if k < 0 then i == k else 0 <= i <= k
      invariant |r| == |list|
      invariant forall j {:trigger r[j]} :: 0 <= j < |list| ==>
                  r[j] == if i < j <= k then list[j - 1] else list[j]
    {
      r := r[i := r[i - 1]];
      i := i - 1;
    }
    r := r[0 := id];
    ghost var expected := MoveToFront(list, id);
    assert forall j :: 0 <= j < |list| ==> r[j] == expected[j];
  }

  /** The list without any occurrence of `x`. */
  function Without(s: seq<Guid>, x: Guid): seq<Guid> {
    if |s| == 0 then [] else (if s[0] == x then [] else [s[0]]) + Without(s[1..], x)
  }

  lemma {:induction false} WithoutAppend(a: seq<Guid>, b: seq<Guid>, x: Guid)
    ensures Without(a + b, x) == Without(a, x) + Without(b, x)
  {
    if |a| > 0 {
      assert (a + b)[1..] == a[1..] + b;
      WithoutAppend(a[1..], b, x);
    } else {
      assert a + b == b;
    }
  }

  lemma WithoutSelf(x: Guid)
    ensures Without([x], x) == []
  {
    assert [x][1..] == [];
  }

  /** Dropping `x` from `a`, `x`, `b` leaves `a` then `b`. */
  lemma WithoutAround(a: seq<Guid>, b: seq<Guid>, x: Guid)
    ensures Without(a + [x] + b, x) == Without(a, x) + Without(b, x)
  {
    WithoutSelf(x);
    WithoutAppend(a + [x], b, x);
    WithoutAppend(a, [x], x);
  }

  /** Dropping `x` from `x`, `a`, `b` leaves `a` then `b`. */
  lemma WithoutLeading(a: seq<Guid>, b: seq<Guid>, x: Guid)
    ensures Without([x] + a + b, x) == Without(a, x) + Without(b, x)
  {
    WithoutSelf(x);
    WithoutAppend([x] + a, b, x);
    WithoutAppend([x], a, x);
  }

  lemma MoveToFrontOfListed(list: seq<Guid>, id: Guid)
    requires id in list
    ensures MoveToFront(list, id) == [id] + list[..IndexOf(list, id)] + list[IndexOf(list, id) + 1..]
  {
  }

  lemma SplitAtIndex(list: seq<Guid>, k: nat)
    requires k < |list|
    ensures list == list[..k] + [list[k]] + list[k + 1..]
  {
    assert list == list[..k] + list[k..];
    assert list[k..] == [list[k]] + list[k + 1..];
  }

  /** Promoting a listed id keeps the relative order of all other ids. */
  lemma MoveToFrontKeepsOthersInOrder(list: seq<Guid>, id: Guid)
    requires id in list
    ensures Without(MoveToFront(list, id), id) == Without(list, id)
  {
    var k := IndexOf(list, id);
    var a, b := list[..k], list[k + 1..];
    MoveToFrontOfListed(list, id);
    SplitAtIndex(list, k);
    WithoutLeading(a, b, id);
    WithoutAround(a, b, id);
  }

  /** Promoting a listed id permutes the list. */
  lemma MoveToFrontIsPermutation(list: seq<Guid>, id: Guid)
    requires id in list
    ensures multiset(MoveToFront(list, id)) == multiset(list)
  {
    var k := IndexOf(list, id);
    assert list == list[..k] + [id] + list[k + 1..];
  }

  /** Promotion never introduces a duplicate, whether or not the id was listed. */
  lemma MoveToFrontKeepsUnique(list: seq<Guid>, id: Guid)
    requires |list| > 0 && NoDuplicates(list)
    ensures NoDuplicates(MoveToFront(list, id))
  {
    var k := IndexOf(list, id);
    var r := MoveToFront(list, id);
    forall i, j | 0 <= i < j < |r| ensures r[i] != r[j] {
      if k < 0 {
        if i == 0 { assert list[j] in list; } else { assert r[i] == list[i] && r[j] == list[j]; }
      } else if i == 0 {
        assert r[j] == (if j <= k then list[j - 1] else list[j]);
      } else {
        assert r[i] == (if i <= k then list[i - 1] else list[i]);
        assert r[j] == (if j <= k then list[j - 1] else list[j]);
      }
    }
  }

  /** Promoting the id already at index 0 changes nothing; promoting an absent
      id loses the entry that was at index 0. */
  lemma MoveToFrontEdgeCases(list: seq<Guid>, id: Guid)
    requires |list| > 0
    ensures list[0] == id ==> MoveToFront(list, id) == list
    ensures id !in list ==> MoveToFront(list, id) == [id] + list[1..]
  {
    if list[0] == id {
      assert MoveToFront(list, id) == [id] + list[1..];
      assert list == [list[0]] + list[1..];
    }
  }

  /** The worked example: promoting C in [A, B, C] gives [C, A, B]. */
  lemma MoveToFrontExample()
    ensures MoveToFront(["A", "B", "C"], "C") == ["C", "A", "B"]
  {
    assert IndexOf(["A", "B", "C"], "C") == 2;
  }

  /** `eTag ??= DefaultETag`: an existing eTag is kept, a missing one defaulted. */
  function WithDefaultETag(bp: BuildplateData): (r: BuildplateData)
    ensures r.(eTag := bp.eTag) == bp
    ensures bp.eTag.None? ==> r.eTag == Some(DefaultETag)
    ensures bp.eTag.Some? ==> r == bp
  {
    if bp.eTag.None? then bp.(eTag := Some(DefaultETag)) else bp
  }

  // ---------------------------------------------------------------------
  // Sharing
  // ---------------------------------------------------------------------

  /** The buildplate part of a share: geometry fields and order copied, type fixed. */
  function Snapshot(bp: BuildplateData): (s: SharedBuildplateData)
    ensures s.blocksPerMeter == bp.blocksPerMeter && s.dimension == bp.dimension
    ensures s.model == bp.model && s.offset == bp.offset && s.order == bp.order
    ensures s.surfaceOrientation == bp.surfaceOrientation && s.kind == SurvivalType
  {
    SharedBuildplateData(bp.blocksPerMeter, bp.dimension, bp.model, bp.offset, bp.order,
                         bp.surfaceOrientation, SurvivalType)
  }

  /** A snapshot does not depend on the identity, lock or eTag of the
      buildplate, so a clone shares exactly as its template does. */
  lemma SnapshotOfCloneIsTemplates(template: BuildplateData, clonedId: Guid)
    ensures Snapshot(Cloned(template, clonedId)) == Snapshot(template)
    ensures Snapshot(WithDefaultETag(template)) == Snapshot(template)
  {
  }

  /** The reference handed back by a share. */
  function ShareReference(sharedId: string): (r: string)
    ensures |r| == |SharedBuildplatePrefix| + |sharedId|
    ensures r[..|SharedBuildplatePrefix|] == SharedBuildplatePrefix
    ensures r[|SharedBuildplatePrefix|..] == sharedId
  {
    SharedBuildplatePrefix + sharedId
  }

  /** Distinct shares get distinct references. */
  lemma ShareReferenceIdentifiesShare(a: string, b: string)
    requires ShareReference(a) == ShareReference(b)
    ensures a == b
  {
    assert a == ShareReference(a)[|SharedBuildplatePrefix|..];
  }

  /** What the listing loop still relies on for the buildplates from
      position `order` on: each is stored unchanged, its clone id is still
      unused, and a template is still in the unlock list. */
  ghost predicate Pending(store: map<Guid, BuildplateData>, unlocked: seq<Guid>,
                          store0: map<Guid, BuildplateData>, ids: seq<Guid>, cloneIds: seq<Guid>, order: nat)
  {
    && |ids| == |cloneIds|
    && (forall j :: order <= j < |ids| ==> ids[j] in store && ids[j] in store0 && store[ids[j]] == store0[ids[j]])
    && (forall j :: order <= j < |ids| ==> cloneIds[j] !in store && cloneIds[j] !in unlocked)
    && (forall j :: order <= j < |ids| && IsTemplate(store0[ids[j]]) ==> ids[j] in unlocked)
  }

  /** The facts the next listing step needs. */
  lemma PendingNext(store: map<Guid, BuildplateData>, unlocked: seq<Guid>,
                    store0: map<Guid, BuildplateData>, ids: seq<Guid>, cloneIds: seq<Guid>, order: nat)
    requires order < |ids| && Pending(store, unlocked, store0, ids, cloneIds, order)
    ensures ids[order] in store && store[ids[order]] == store0[ids[order]]
    ensures cloneIds[order] !in store && cloneIds[order] !in unlocked
    ensures IsTemplate(store0[ids[order]]) ==> ids[order] in unlocked
    ensures Pending(store, unlocked, store0, ids, cloneIds, order + 1)
  {
  }

  /** Listing a template (storing its clone and replacing it in the unlock
      list) keeps what the later steps rely on. */
  lemma PendingAfterClone(store: map<Guid, BuildplateData>, unlocked: seq<Guid>,
                          store0: map<Guid, BuildplateData>, ids: seq<Guid>, cloneIds: seq<Guid>, order: nat,
                          clone: BuildplateData)
    requires order < |ids| && Pending(store, unlocked, store0, ids, cloneIds, order)
    requires NoDuplicates(ids) && NoDuplicates(cloneIds)
    requires ids[order] in unlocked
    ensures Pending(store[cloneIds[order] := clone], ReplaceFirst(unlocked, ids[order], cloneIds[order]),
                    store0, ids, cloneIds, order + 1)
  {
    var c := cloneIds[order];
    var l := ReplaceFirst(unlocked, ids[order], c);
    var s := store[c := clone];
    forall j | order + 1 <= j < |ids| ensures ids[j] in s && ids[j] in store0 && s[ids[j]] == store0[ids[j]] {
      assert ids[j] in store && ids[j] != c;
    }
    forall j | order + 1 <= j < |ids| ensures cloneIds[j] !in s && cloneIds[j] !in l {
      assert cloneIds[j] != c;
    }
    forall j | order + 1 <= j < |ids| && IsTemplate(store0[ids[j]]) ensures ids[j] in l {
      assert ids[j] != ids[order];
    }
  }

  // ---------------------------------------------------------------------
  // The stores
  // ---------------------------------------------------------------------

  /** The buildplate folder, one player's unlock list (as read back) and the
      shared-buildplate folder. */
  class BuildplateStore {
    var buildplates: map<Guid, BuildplateData>
    var unlocked: seq<Guid>
    var shared: map<string, SharedBuildplateInfo>

    /** Every buildplate is stored under its own id. */
    ghost predicate Valid()
      reads this
    {
      forall id :: id in buildplates ==> buildplates[id].id == id
    }

    constructor (buildplates: map<Guid, BuildplateData>, unlocked: seq<Guid>, shared: map<string, SharedBuildplateInfo>)
      requires forall id :: id in buildplates ==> buildplates[id].id == id
      ensures Valid()
      ensures this.buildplates == buildplates && this.unlocked == unlocked && this.shared == shared
    {
      this.buildplates := buildplates;
      this.unlocked := unlocked;
      this.shared := shared;
    }

    method AddToPlayer(buildplateId: Guid)
      modifies this
      ensures unlocked == AddIfAbsent(old(unlocked), buildplateId)
      ensures buildplates == old(buildplates) && shared == old(shared)
    {
      if buildplateId !in unlocked {
        unlocked := unlocked + [buildplateId];
      }
    }

    /** Clones `template` under the fresh id `clonedId`, stores the clone and
        puts its id where the template's id was in the unlock list. The
        template's id is taken before the clone is renamed. */
    method CloneTemplateBuildplate(template: BuildplateData, clonedId: Guid) returns (clone: BuildplateData)
      requires Valid()
      requires template.id in unlocked
      requires clonedId !in buildplates && clonedId !in unlocked
      modifies this
      ensures Valid()
      ensures clone == Cloned(template, clonedId)
      ensures buildplates == old(buildplates)[clonedId := clone]
      ensures unlocked == ReplaceFirst(old(unlocked), template.id, clonedId)
      ensures shared == old(shared)
    {
      var templateId := template.id;
      clone := Cloned(template, clonedId);
      buildplates := buildplates[clonedId := clone];
      var index := IndexOf(unlocked, templateId);
      var inserted := ListInsert(ListRemove(unlocked, templateId), index, clonedId);
      unlocked := inserted.value;
    }

    /** Lists the buildplates `ids` (the folder's enumeration order), cloning
        each template under the matching entry of `cloneIds`. */
    method GetBuildplatesList(ids: seq<Guid>, cloneIds: seq<Guid>) returns (list: seq<BuildplateData>)
      requires Valid()
      requires forall j :: 0 <= j < |ids| ==> ids[j] in buildplates
      requires NoDuplicates(ids)
      requires |cloneIds| == |ids| && NoDuplicates(cloneIds)
      requires forall j :: 0 <= j < |cloneIds| ==> cloneIds[j] !in buildplates && cloneIds[j] !in unlocked
      requires forall j :: 0 <= j < |ids| && IsTemplate(buildplates[ids[j]]) ==> ids[j] in unlocked
      modifies this
      ensures Valid()
      ensures |list| == |ids|
      ensures forall j :: 0 <= j < |ids| ==> list[j] == ListedEntry(old(buildplates)[ids[j]], j, cloneIds[j])
      ensures buildplates == StoreAfter(old(buildplates), ids, cloneIds, |ids|)
      ensures unlocked == UnlockedAfter(old(unlocked), old(buildplates), ids, cloneIds, |ids|)
      ensures shared == old(shared)
    {
      ghost var store0, list0 := buildplates, unlocked;
      list := [];
      var order := 0;
      while order < |ids|
        invariant 0 <= order <= |ids|
        invariant Valid() && shared == old(shared)
        invariant list == ListedEntries(store0, ids, cloneIds, order)
        invariant buildplates == StoreAfter(store0, ids, cloneIds, order)
        invariant unlocked == UnlockedAfter(list0, store0, ids, cloneIds, order)
        invariant Pending(buildplates, unlocked, store0, ids, cloneIds, order)
      {
        var entry := ListStep(ids, cloneIds, order, store0, list0);
        list := list + [entry];
        order := order + 1;
      }
      ListedEntriesAt(store0, ids, cloneIds, |ids|);
    }

    /** One iteration of the listing loop: the entry for the buildplate at
        position `order`, cloning it first when it is a template. */
    method ListStep(ids: seq<Guid>, cloneIds: seq<Guid>, order: nat,
                    ghost store0: map<Guid, BuildplateData>, ghost list0: seq<Guid>)
      returns (entry: BuildplateData)
      requires order < |ids| && NoDuplicates(ids) && NoDuplicates(cloneIds)
      requires forall j :: 0 <= j < |ids| ==> ids[j] in store0
      requires Valid() && Pending(buildplates, unlocked, store0, ids, cloneIds, order)
      requires buildplates == StoreAfter(store0, ids, cloneIds, order)
      requires unlocked == UnlockedAfter(list0, store0, ids, cloneIds, order)
      modifies this
      ensures entry == ListedEntry(store0[ids[order]], order, cloneIds[order])
      ensures Valid() && Pending(buildplates, unlocked, store0, ids, cloneIds, order + 1)
      ensures buildplates == StoreAfter(store0, ids, cloneIds, order + 1)
      ensures unlocked == UnlockedAfter(list0, store0, ids, cloneIds, order + 1)
      ensures shared == old(shared)
    {
      var id := ids[order];
      ghost var before, listBefore := buildplates, unlocked;
      PendingNext(before, listBefore, store0, ids, cloneIds, order);
      var bp := buildplates[id].(order := order);
      if bp.id != bp.templateId {
        entry := buildplates[id];
      } else {
        entry := CloneTemplateBuildplate(bp, cloneIds[order]);
        PendingAfterClone(before, listBefore, store0, ids, cloneIds, order, entry);
      }
    }

    /** Stores `data` (defaulting its eTag) and promotes its id to the front
        of the unlock list; an empty list makes the source throw after the
        buildplate was written (`ok` false, list unchanged). */
    method UpdateBuildplateAndList(data: BuildplateData) returns (ok: bool)
      requires Valid()
      modifies this
      ensures Valid()
      ensures buildplates == old(buildplates)[data.id := WithDefaultETag(data)]
      ensures ok <==> |old(unlocked)| > 0
      ensures ok ==> unlocked == MoveToFront(old(unlocked), data.id)
      ensures !ok ==> unlocked == old(unlocked)
      ensures shared == old(shared)
    {
      buildplates := buildplates[data.id := WithDefaultETag(data)];
      if |unlocked| == 0 {
        return false;
      }
      unlocked := PromoteToFront(unlocked, data.id);
      return true;
    }

    /** Stores an immutable snapshot of buildplate `buildplateId` under the
        fresh share id `sharedId`, with the sharer's inventory view, and
        returns the share reference. */
    method ShareBuildplate(buildplateId: Guid, sharedId: string, hotbarView: InventoryUtils.Inventory)
      returns (reference: string)
      requires buildplateId in buildplates && sharedId !in shared
      modifies this
      ensures shared == old(shared)[sharedId := SharedBuildplateInfo(UnknownUser, Snapshot(old(buildplates)[buildplateId]), hotbarView)]
      ensures reference == ShareReference(sharedId)
      ensures buildplates == old(buildplates) && unlocked == old(unlocked)
    {
      var snapshot := Snapshot(buildplates[buildplateId]);
      shared := shared[sharedId := SharedBuildplateInfo(UnknownUser, snapshot, hotbarView)];
      reference := ShareReference(sharedId);
    }
  }
}
