/** Document timelines: reading stored snapshots back, grouping rows by document, ordering versions
    and diffing each consecutive pair (backend/src/services/agenda-diff.ts). */
module Timelines {
  import opened Options
  import opened Sequences
  import opened AgendaDiff
  import opened AgendaDiffLaws

  // ---- stored snapshots ----------------------------------------------------------

  /** A value read back from a JSON column. A number is finite or it is not. */
  datatype Json =
    | Null
    | Bool(b: bool)
    | Number(n: real)
    | NonFinite
    | Text(s: string)
    | Array(elements: seq<Json>)
    | Object(fields: map<string, Json>)

  /** One stored entry as an item, if it is one. */
  function ParseEntry(entry: Json): Option<Item> {
    if entry.Object? && "item_number" in entry.fields && "title" in entry.fields &&
       entry.fields["item_number"].Number? && entry.fields["title"].Text?
    then Some(Item(entry.fields["item_number"].n, entry.fields["title"].s)) else None
  }

  predicate AllEntries(entries: seq<Json>) {
    forall k :: 0 <= k < |entries| ==> ParseEntry(entries[k]).Some?
  }

  /** What a stored snapshot reads as: all of its items, or nothing at all. */
  function Snapshot(value: Json): (items: Option<seq<Item>>) {
    if value.Array? && AllEntries(value.elements)
    then Some(seq(|value.elements|, k requires 0 <= k < |value.elements| => ParseEntry(value.elements[k]).value))
    else None
  }

  /** `parseItemSnapshot`. */
  method ParseItemSnapshot(value: Json) returns (items: Option<seq<Item>>)
    ensures items == Snapshot(value)
  {
    if !value.Array? {
      return None;
    }
    var read: seq<Item> := [];
    for k := 0 to |value.elements|
      invariant |read| == k
      invariant forall m :: 0 <= m < k ==> ParseEntry(value.elements[m]) == Some(read[m])
    {
      var entry := value.elements[k];
      if !entry.Object? {
        return None;
      }
      if "item_number" !in entry.fields || !entry.fields["item_number"].Number? {
        return None;
      }
      if "title" !in entry.fields || !entry.fields["title"].Text? {
        return None;
      }
      read := read + [Item(entry.fields["item_number"].n, entry.fields["title"].s)];
    }
    assert AllEntries(value.elements);
    assert Snapshot(value).value == read;
    items := Some(read);
  }

  /** An entry that is an object with a finite `item_number` and a text `title`. */
  predicate IsItemEntry(e: Json) {
    && e.Object? && "item_number" in e.fields && "title" in e.fields
    && e.fields["item_number"].Number? && e.fields["title"].Text?
  }

  /** A value reads as items exactly when it is a list of nothing but item entries, and then as theirs, one
      for one; a value with anything else in it reads as unknown, not as fewer items. */
  lemma SnapshotReads(value: Json)
    ensures Snapshot(value).Some? <==>
              value.Array? && forall k :: 0 <= k < |value.elements| ==> IsItemEntry(value.elements[k])
    ensures Snapshot(value).Some? ==>
              var items := Snapshot(value).value;
              |items| == |value.elements| &&
              forall k :: 0 <= k < |items| ==>
                items[k].number == value.elements[k].fields["item_number"].n &&
                items[k].title == value.elements[k].fields["title"].s
  {
    if value.Array? {
      forall k | 0 <= k < |value.elements|
        ensures ParseEntry(value.elements[k]).Some? <==> IsItemEntry(value.elements[k])
      {
      }
    }
  }

  function StoredItem(item: Item): Json {
    Object(map["item_number" := Number(item.number), "title" := Text(item.title)])
  }

  /** What the parse stage writes for a list of items (`snapshotFromDrafts`). */
  function StoredSnapshot(items: seq<Item>): Json { Array(Map(items, StoredItem)) }

  /** A stored snapshot reads back as written, and a value with one malformed entry reads as unknown. */
  lemma SnapshotRoundTrip(items: seq<Item>)
    ensures Snapshot(StoredSnapshot(items)) == Some(items)
  {
    var stored := StoredSnapshot(items);
    forall k | 0 <= k < |items| ensures ParseEntry(stored.elements[k]) == Some(items[k]) {
      assert stored.elements[k] == StoredItem(items[k]);
    }
    assert Snapshot(stored).value == items;
  }

  // ---- rows and timelines ----------------------------------------------------------

  /** A `document_versions` row joined to its document and its artifact. */
  datatype Row = Row(documentId: string, documentTitle: string, documentType: string, url: string,
                     versionId: string, versionNo: int, firstSeen: int, sha256: string, byteSize: int,
                     snapshot: Json)

  datatype Version = Version(id: string, versionNo: int, firstSeen: int, sha256: string, byteSize: int,
                             itemCount: Option<nat>)

  datatype DiffPair = DiffPair(from: Version, to: Version, changes: Option<seq<Change>>,
                               fromItems: Option<seq<Item>>, toItems: Option<seq<Item>>)

  datatype Timeline = Timeline(documentId: string, title: string, documentType: string, url: string,
                               versions: seq<Version>, diffs: seq<DiffPair>)

  function VersionOf(row: Row): Version {
    var items := Snapshot(row.snapshot);
    Version(row.versionId, row.versionNo, row.firstSeen, row.sha256, row.byteSize,
            if items.Some? then Some(|items.value|) else None)
  }

  function DiffOf(lower: string -> string, from: Row, to: Row): DiffPair {
    var before, after := Snapshot(from.snapshot), Snapshot(to.snapshot);
    DiffPair(VersionOf(from), VersionOf(to),
             if before.Some? && after.Some? then Some(Diff(lower, before.value, after.value)) else None,
             before, after)
  }

  function DiffsUpTo(lower: string -> string, ordered: seq<Row>, n: nat): seq<DiffPair>
    requires n <= |ordered|
  {
    if n <= 1 then [] else DiffsUpTo(lower, ordered, n - 1) + [DiffOf(lower, ordered[n - 2], ordered[n - 1])]
  }

  predicate VersionOrder(x: Row, y: Row) { x.versionNo <= y.versionNo }

  function OfDocument(documentId: string): Row -> bool { (row: Row) => row.documentId == documentId }

  /** A document's rows, oldest version first. */
  function Ordered(rows: seq<Row>, documentId: string): seq<Row> {
    StableSort(Filter(rows, OfDocument(documentId)), VersionOrder)
  }

  function TimelineOf(lower: string -> string, rows: seq<Row>, documentId: string): Timeline
    requires Ordered(rows, documentId) != []
  {
    var ordered := Ordered(rows, documentId);
    Timeline(documentId, ordered[0].documentTitle, ordered[0].documentType, ordered[0].url,
             Map(ordered, VersionOf), DiffsUpTo(lower, ordered, |ordered|))
  }

  /** The documents in order of first appearance, which is a `Map`'s order. */
  function Documents(rows: seq<Row>): seq<string> {
    if rows == [] then []
    else
      var before, id := Documents(rows[..|rows| - 1]), rows[|rows| - 1].documentId;
      if id in before then before else before + [id]
  }

  function TimelinesOf(lower: string -> string, rows: seq<Row>, ids: seq<string>): seq<Timeline>
    requires forall k :: 0 <= k < |ids| ==> Ordered(rows, ids[k]) != []
  {
    seq(|ids|, k requires 0 <= k < |ids| => TimelineOf(lower, rows, ids[k]))
  }

  /** `localeCompare` as an order: titles first, then document ids. */
  predicate Precedes(collate: (string, string) -> bool, x: Timeline, y: Timeline) {
    collate(x.title, y.title) && (!collate(y.title, x.title) || collate(x.documentId, y.documentId))
  }

  function TimelineOrder(collate: (string, string) -> bool): (Timeline, Timeline) -> bool {
    (x: Timeline, y: Timeline) => Precedes(collate, x, y)
  }

  lemma {:induction false} DocumentsHold(rows: seq<Row>, id: string)
    ensures id in Documents(rows) <==> Filter(rows, OfDocument(id)) != []
  {
    if rows == [] {
    } else {
      DocumentsHold(rows[..|rows| - 1], id);
    }
  }

  lemma DocumentsHaveRows(rows: seq<Row>)
    ensures forall k :: 0 <= k < |Documents(rows)| ==> Ordered(rows, Documents(rows)[k]) != []
  {
    forall k | 0 <= k < |Documents(rows)| ensures Ordered(rows, Documents(rows)[k]) != [] {
      DocumentsHold(rows, Documents(rows)[k]);
      SortKeeps(Filter(rows, OfDocument(Documents(rows)[k])), VersionOrder);
    }
  }

  /** The timelines as a function of the rows. */
  function Timelines(lower: string -> string, collate: (string, string) -> bool, rows: seq<Row>): seq<Timeline> {
    DocumentsHaveRows(rows);
    StableSort(TimelinesOf(lower, rows, Documents(rows)), TimelineOrder(collate))
  }

  // ---- the code -----------------------------------------------------------------------

  /** The buckets of `byDocument` over the rows seen so far, and their insertion order. */
  ghost predicate Grouped(rows: seq<Row>, order: seq<string>, groups: map<string, seq<Row>>) {
    && order == Documents(rows)
    && (forall id :: id in groups <==> id in order)
    && (forall id :: id in groups ==> groups[id] == Filter(rows, OfDocument(id)))
  }

  lemma GroupedStep(rows: seq<Row>, row: Row, order: seq<string>, groups: map<string, seq<Row>>)
    requires Grouped(rows, order, groups)
    ensures var id := row.documentId;
            if id in groups then Grouped(rows + [row], order, groups[id := groups[id] + [row]])
            else Grouped(rows + [row], order + [id], groups[id := [row]])
  {
    assert (rows + [row])[..|rows|] == rows;
    DocumentsHold(rows, row.documentId);
    forall id ensures Filter(rows + [row], OfDocument(id)) ==
                      Filter(rows, OfDocument(id)) + (if id == row.documentId then [row] else [])
    {
      FilterAppend(rows, row, OfDocument(id));
    }
  }

  lemma NothingGrouped()
    ensures Grouped([], [], map[])
  {
  }

  method GroupByDocument(rows: seq<Row>) returns (order: seq<string>, groups: map<string, seq<Row>>)
    ensures Grouped(rows, order, groups)
  {
    order, groups := [], map[];
    NothingGrouped();
    assert rows[..0] == [];
    hide Grouped;
    for k := 0 to |rows|
      invariant Grouped(rows[..k], order, groups)
    {
      var row := rows[k];
      GroupedStep(rows[..k], row, order, groups);
      assert rows[..k + 1] == rows[..k] + [row];
      if row.documentId in groups {
        groups := groups[row.documentId := groups[row.documentId] + [row]];
      } else {
        order, groups := order + [row.documentId], groups[row.documentId := [row]];
      }
    }
    assert rows[..|rows|] == rows;
  }

  /** Parses every snapshot of one document once. */
  method ReadVersions(ordered: seq<Row>) returns (snapshots: seq<Option<seq<Item>>>, versions: seq<Version>)
    ensures |snapshots| == |ordered|
    ensures forall k :: 0 <= k < |ordered| ==> snapshots[k] == Snapshot(ordered[k].snapshot)
    ensures versions == Map(ordered, VersionOf)
  {
    snapshots, versions := [], [];
    for k := 0 to |ordered|
      invariant |snapshots| == |versions| == k
      invariant forall m :: 0 <= m < k ==> snapshots[m] == Snapshot(ordered[m].snapshot)
      invariant forall m :: 0 <= m < k ==> versions[m] == VersionOf(ordered[m])
    {
      var row := ordered[k];
      var items := ParseItemSnapshot(row.snapshot);
      snapshots := snapshots + [items];
      versions := versions + [Version(row.versionId, row.versionNo, row.firstSeen, row.sha256, row.byteSize,
                                      if items.Some? then Some(|items.value|) else None)];
    }
    assert versions == Map(ordered, VersionOf);
  }

  /** Diffs one consecutive pair, or records that it cannot be diffed. */
  method DiffPairOf(lower: string -> string, from: Row, to: Row, fromItems: Option<seq<Item>>,
                    toItems: Option<seq<Item>>, fromVersion: Version, toVersion: Version) returns (pair: DiffPair)
    requires fromItems == Snapshot(from.snapshot) && toItems == Snapshot(to.snapshot)
    requires fromVersion == VersionOf(from) && toVersion == VersionOf(to)
    ensures pair == DiffOf(lower, from, to)
  {
    var changes := None;
    if fromItems.Some? && toItems.Some? {
      var computed := DiffAgendaItems(lower, fromItems.value, toItems.value);
      changes := Some(computed);
    }
    pair := DiffPair(fromVersion, toVersion, changes, fromItems, toItems);
  }

  /** One document: its versions in order, and the chain of diffs between neighbours. */
  method BuildTimeline(lower: string -> string, ghost rows: seq<Row>, documentId: string, group: seq<Row>)
    returns (timeline: Timeline)
    requires group == Filter(rows, OfDocument(documentId)) && Ordered(rows, documentId) != []
    ensures timeline == TimelineOf(lower, rows, documentId)
  {
    var ordered := StableSort(group, VersionOrder);
    var snapshots, versions := ReadVersions(ordered);
    var diffs: seq<DiffPair> := [];
    for index := 1 to |ordered|
      invariant diffs == DiffsUpTo(lower, ordered, index)
    {
      var pair := DiffPairOf(lower, ordered[index - 1], ordered[index], snapshots[index - 1], snapshots[index],
                             versions[index - 1], versions[index]);
      diffs := diffs + [pair];
    }
    timeline := Timeline(documentId, ordered[0].documentTitle, ordered[0].documentType, ordered[0].url, versions,
                         diffs);
  }

  lemma GroupOf(rows: seq<Row>, order: seq<string>, groups: map<string, seq<Row>>, k: nat)
    requires Grouped(rows, order, groups) && k < |order|
    ensures order[k] in groups && groups[order[k]] == Filter(rows, OfDocument(order[k]))
  {
  }

  ghost predicate BuiltSoFar(lower: string -> string, rows: seq<Row>, ids: seq<string>, timelines: seq<Timeline>) {
    (forall k :: 0 <= k < |ids| ==> Ordered(rows, ids[k]) != []) && timelines == TimelinesOf(lower, rows, ids)
  }

  lemma BuiltOneMore(lower: string -> string, rows: seq<Row>, ids: seq<string>, id: string, timelines: seq<Timeline>)
    requires BuiltSoFar(lower, rows, ids, timelines) && Ordered(rows, id) != []
    ensures BuiltSoFar(lower, rows, ids + [id], timelines + [TimelineOf(lower, rows, id)])
  {
    hide TimelineOf, Ordered;
  }

  method BuildEach(lower: string -> string, ghost rows: seq<Row>, order: seq<string>, groups: map<string, seq<Row>>)
    returns (timelines: seq<Timeline>)
    requires Grouped(rows, order, groups)
    requires forall k :: 0 <= k < |order| ==> Ordered(rows, order[k]) != []
    ensures timelines == TimelinesOf(lower, rows, order)
  {
    hide Ordered, TimelineOf, Grouped;
    timelines := [];
    for k := 0 to |order|
      invariant BuiltSoFar(lower, rows, order[..k], timelines)
    {
      GroupOf(rows, order, groups, k);
      var timeline := BuildTimeline(lower, rows, order[k], groups[order[k]]);
      assert order[..k + 1] == order[..k] + [order[k]];
      BuiltOneMore(lower, rows, order[..k], order[k], timelines);
      timelines := timelines + [timeline];
    }
    assert order[..|order|] == order;
  }

  /** `buildTimelines`, proved to compute `Timelines`. */
  method BuildTimelines(lower: string -> string, collate: (string, string) -> bool, rows: seq<Row>)
    returns (timelines: seq<Timeline>)
    ensures timelines == Timelines(lower, collate, rows)
  {
    var order, groups := GroupByDocument(rows);
    DocumentsHaveRows(rows);
    timelines := BuildEach(lower, rows, order, groups);
    timelines := StableSort(timelines, TimelineOrder(collate));
  }

  // ---- what a timeline says ----------------------------------------------------------

  lemma {:induction false} DiffsLinkNeighbours(lower: string -> string, ordered: seq<Row>, n: nat)
    requires n <= |ordered|
    ensures |DiffsUpTo(lower, ordered, n)| == (if n == 0 then 0 else n - 1)
    ensures forall k :: 0 <= k < n - 1 ==> DiffsUpTo(lower, ordered, n)[k] == DiffOf(lower, ordered[k], ordered[k + 1])
  {
    hide DiffOf;
    if n <= 1 {
    } else {
      DiffsLinkNeighbours(lower, ordered, n - 1);
    }
  }

  /** Diff `k` of a timeline links versions k and k + 1; it has changes exactly when both were read. */
  ghost predicate LinkedAt(lower: string -> string, t: Timeline, k: nat)
    requires k < |t.diffs| == |t.versions| - 1
  {
    var d := t.diffs[k];
    && d.from == t.versions[k] && d.to == t.versions[k + 1]
    && (d.changes.None? <==> t.versions[k].itemCount.None? || t.versions[k + 1].itemCount.None?)
    && (d.changes.None? <==> d.fromItems.None? || d.toItems.None?)
    && (d.changes.Some? ==> d.changes.value == Diff(lower, d.fromItems.value, d.toItems.value))
  }

  /** A timeline of n versions has n - 1 diffs, each linking two neighbours; its changes are missing
      exactly when one of the two snapshots could not be read, and otherwise are their diff. Versions
      come in increasing order. */
  lemma TimelineChains(lower: string -> string, rows: seq<Row>, id: string)
    requires Ordered(rows, id) != []
    ensures var t := TimelineOf(lower, rows, id);
            && |t.diffs| == |t.versions| - 1
            && (forall k: nat :: k < |t.diffs| ==> LinkedAt(lower, t, k))
            && (forall k, m :: 0 <= k < m < |t.versions| ==> t.versions[k].versionNo <= t.versions[m].versionNo)
  {
    var ordered, t := Ordered(rows, id), TimelineOf(lower, rows, id);
    DiffsLinkNeighbours(lower, ordered, |ordered|);
    forall k: nat | k < |t.diffs| ensures LinkedAt(lower, t, k) {
      DiffLinks(lower, ordered[k], ordered[k + 1], t.diffs[k]);
    }
    SortSorts(Filter(rows, OfDocument(id)), VersionOrder);
    forall k, m | 0 <= k < m < |t.versions| ensures t.versions[k].versionNo <= t.versions[m].versionNo {
      assert VersionOrder(ordered[k], ordered[m]);
    }
  }

  /** A timeline column by column: its versions are its document's rows from the oldest on, each under its own
      id, number, date, sha and size and with the number of items its snapshot holds; title, type and
      address are the oldest version's; each diff carries the snapshots of its two versions. */
  lemma TimelineReads(lower: string -> string, rows: seq<Row>, id: string)
    requires Ordered(rows, id) != []
    ensures var t, ordered := TimelineOf(lower, rows, id), Ordered(rows, id);
            && t.documentId == id && |t.versions| == |ordered|
            && (forall k :: 0 <= k < |ordered| ==>
                  var v, row := t.versions[k], ordered[k];
                  && v.id == row.versionId && v.versionNo == row.versionNo && v.firstSeen == row.firstSeen
                  && v.sha256 == row.sha256 && v.byteSize == row.byteSize && v.itemCount == StoredCount(row))
            && (exists row :: row in rows && row.documentId == id && t.title == row.documentTitle &&
                  t.documentType == row.documentType && t.url == row.url &&
                  forall other :: other in rows && other.documentId == id ==> row.versionNo <= other.versionNo)
            && |t.diffs| == |ordered| - 1
            && (forall k :: 0 <= k < |t.diffs| ==>
                  t.diffs[k].fromItems == Snapshot(ordered[k].snapshot) &&
                  t.diffs[k].toItems == Snapshot(ordered[k + 1].snapshot))
  {
    var ordered, t := Ordered(rows, id), TimelineOf(lower, rows, id);
    forall k | 0 <= k < |ordered| ensures t.versions[k] == VersionOf(ordered[k]) {
    }
    DiffsLinkNeighbours(lower, ordered, |ordered|);
    OldestFirst(rows, id);
    hide Ordered, TimelineOf, DiffsUpTo, Snapshot;
    forall k | 0 <= k < |ordered|
      ensures var v, row := t.versions[k], ordered[k];
              && v.id == row.versionId && v.versionNo == row.versionNo && v.firstSeen == row.firstSeen
              && v.sha256 == row.sha256 && v.byteSize == row.byteSize && v.itemCount == StoredCount(row)
    {
      VersionColumns(ordered[k]);
    }
    forall k | 0 <= k < |t.diffs|
      ensures t.diffs[k].fromItems == Snapshot(ordered[k].snapshot)
      ensures t.diffs[k].toItems == Snapshot(ordered[k + 1].snapshot)
    {
      DiffItems(lower, ordered[k], ordered[k + 1]);
    }
  }

  lemma VersionColumns(row: Row)
    ensures var v := VersionOf(row);
            && v.id == row.versionId && v.versionNo == row.versionNo && v.firstSeen == row.firstSeen
            && v.sha256 == row.sha256 && v.byteSize == row.byteSize && v.itemCount == StoredCount(row)
  {
  }

  lemma DiffItems(lower: string -> string, from: Row, to: Row)
    ensures DiffOf(lower, from, to).fromItems == Snapshot(from.snapshot)
    ensures DiffOf(lower, from, to).toItems == Snapshot(to.snapshot)
  {
  }

  lemma OldestFirst(rows: seq<Row>, id: string)
    requires Ordered(rows, id) != []
    ensures var row := Ordered(rows, id)[0];
            && row in rows && row.documentId == id
            && forall other :: other in rows && other.documentId == id ==> row.versionNo <= other.versionNo
  {
    var ordered := Ordered(rows, id);
    SortSorts(Filter(rows, OfDocument(id)), VersionOrder);
    OrderedMembers(rows, id, ordered[0]);
    forall other | other in rows && other.documentId == id ensures ordered[0].versionNo <= other.versionNo {
      OrderedMembers(rows, id, other);
      var k :| 0 <= k < |ordered| && ordered[k] == other;
      assert k > 0 ==> VersionOrder(ordered[0], ordered[k]);
    }
  }

  lemma DiffLinks(lower: string -> string, from: Row, to: Row, d: DiffPair)
    requires d == DiffOf(lower, from, to)
    ensures d.from == VersionOf(from) && d.to == VersionOf(to)
    ensures d.changes.None? <==> VersionOf(from).itemCount.None? || VersionOf(to).itemCount.None?
    ensures d.changes.None? <==> d.fromItems.None? || d.toItems.None?
    ensures d.changes.Some? ==> d.changes.value == Diff(lower, d.fromItems.value, d.toItems.value)
  {
  }

  /** Folds the first `n` diffs of a chain over a title set, each as a patch. */
  function PatchThrough(lower: string -> string, titles: set<string>, diffs: seq<DiffPair>, n: nat): set<string>
    requires n <= |diffs| && forall k :: 0 <= k < |diffs| ==> diffs[k].changes.Some?
  {
    if n == 0 then titles else Patch(lower, PatchThrough(lower, titles, diffs, n - 1), diffs[n - 1].changes.value)
  }

  /** Diffs telescope: when every version has a snapshot, folding the first k diffs over the first
      version's titles gives version k's titles. */
  lemma {:induction false} DiffsTelescope(lower: string -> string, ordered: seq<Row>, n: nat)
    requires n < |ordered| && forall k :: 0 <= k < |ordered| ==> Snapshot(ordered[k].snapshot).Some?
    ensures var diffs := DiffsUpTo(lower, ordered, |ordered|);
            && |diffs| == |ordered| - 1
            && (forall k :: 0 <= k < |diffs| ==> diffs[k].changes.Some?)
            && PatchThrough(lower, Titles(lower, Snapshot(ordered[0].snapshot).value), diffs, n) ==
               Titles(lower, Snapshot(ordered[n].snapshot).value)
  {
    DiffsLinkNeighbours(lower, ordered, |ordered|);
    var diffs := DiffsUpTo(lower, ordered, |ordered|);
    forall k | 0 <= k < |diffs| ensures diffs[k].changes.Some? {
      assert diffs[k] == DiffOf(lower, ordered[k], ordered[k + 1]);
    }
    if n == 0 {
    } else {
      DiffsTelescope(lower, ordered, n - 1);
      assert diffs[n - 1] == DiffOf(lower, ordered[n - 1], ordered[n]);
      DiffIsPatch(lower, Snapshot(ordered[n - 1].snapshot).value, Snapshot(ordered[n].snapshot).value);
    }
  }

  /** The same over a built timeline, whatever became of the meeting's other documents. */
  lemma TimelineTelescopes(lower: string -> string, rows: seq<Row>, id: string, n: nat)
    requires Ordered(rows, id) != [] && n < |Ordered(rows, id)|
    requires forall row :: row in rows && row.documentId == id ==> Snapshot(row.snapshot).Some?
    ensures var t, ordered := TimelineOf(lower, rows, id), Ordered(rows, id);
            && |t.diffs| == |ordered| - 1
            && (forall k :: 0 <= k < |t.diffs| ==> t.diffs[k].changes.Some?)
            && Snapshot(ordered[0].snapshot).Some? && Snapshot(ordered[n].snapshot).Some?
            && PatchThrough(lower, Titles(lower, Snapshot(ordered[0].snapshot).value), t.diffs, n) ==
               Titles(lower, Snapshot(ordered[n].snapshot).value)
  {
    var ordered := Ordered(rows, id);
    forall k | 0 <= k < |ordered| ensures Snapshot(ordered[k].snapshot).Some? {
      OrderedMembers(rows, id, ordered[k]);
    }
    DiffsTelescope(lower, ordered, n);
  }

  lemma OrderedMembers(rows: seq<Row>, id: string, row: Row)
    ensures row in Ordered(rows, id) <==> row in rows && row.documentId == id
  {
    SortMembers(Filter(rows, OfDocument(id)), VersionOrder, row);
    FilterMembers(rows, OfDocument(id), row);
  }

  // ---- the input order does not matter ---------------------------------------------------

  /** The unique index on (document, version number). */
  ghost predicate UniqueVersions(rows: seq<Row>) {
    forall i, j :: 0 <= i < j < |rows| && rows[i].documentId == rows[j].documentId
      ==> rows[i].versionNo != rows[j].versionNo
  }

  /** A collation is a total preorder that tells distinct document ids apart. */
  ghost predicate Collation(collate: (string, string) -> bool, rows: seq<Row>) {
    && TotalPreorder(collate)
    && (forall x, y :: x in rows && y in rows && collate(x.documentId, y.documentId) &&
                       collate(y.documentId, x.documentId)
          ==> x.documentId == y.documentId)
  }

  lemma OrderedForgetsOrder(rows: seq<Row>, other: seq<Row>, id: string)
    requires multiset(rows) == multiset(other) && UniqueVersions(rows)
    ensures Ordered(rows, id) == Ordered(other, id)
  {
    var group := Filter(rows, OfDocument(id));
    FilterPermutation(rows, other, OfDocument(id));
    forall x, y | x in group && y in group && VersionOrder(x, y) && VersionOrder(y, x) ensures x == y {
      FilterMembers(rows, OfDocument(id), x);
      FilterMembers(rows, OfDocument(id), y);
    }
    SortForgetsOrder(group, Filter(other, OfDocument(id)), VersionOrder);
  }

  lemma {:induction false} DocumentsDistinct(rows: seq<Row>)
    ensures forall i, j :: 0 <= i < j < |Documents(rows)| ==> Documents(rows)[i] != Documents(rows)[j]
  {
    if rows == [] {
    } else {
      DocumentsDistinct(rows[..|rows| - 1]);
    }
  }

  lemma DocumentsPermutation(rows: seq<Row>, other: seq<Row>)
    requires multiset(rows) == multiset(other)
    ensures multiset(Documents(rows)) == multiset(Documents(other))
  {
    DocumentsDistinct(rows);
    DocumentsDistinct(other);
    forall id ensures id in Documents(rows) <==> id in Documents(other) {
      DocumentsHold(rows, id);
      DocumentsHold(other, id);
      FilterPermutation(rows, other, OfDocument(id));
      assert |Filter(rows, OfDocument(id))| == |multiset(Filter(rows, OfDocument(id)))|;
      assert |Filter(other, OfDocument(id))| == |multiset(Filter(other, OfDocument(id)))|;
    }
    DistinctPermutation(Documents(rows), Documents(other));
  }

  lemma SameTimeline(lower: string -> string, rows: seq<Row>, other: seq<Row>, id: string)
    requires Ordered(other, id) == Ordered(rows, id) != []
    ensures TimelineOf(lower, other, id) == TimelineOf(lower, rows, id)
  {
    hide Ordered;
  }

  /** The same timelines are built, before sorting, whatever the order of the rows. */
  lemma TimelinesPermutation(lower: string -> string, rows: seq<Row>, other: seq<Row>)
    requires multiset(rows) == multiset(other) && UniqueVersions(rows)
    requires forall k :: 0 <= k < |Documents(rows)| ==> Ordered(rows, Documents(rows)[k]) != []
    requires forall k :: 0 <= k < |Documents(other)| ==> Ordered(other, Documents(other)[k]) != []
    ensures multiset(TimelinesOf(lower, rows, Documents(rows))) == multiset(TimelinesOf(lower, other, Documents(other)))
  {
    hide Ordered, TimelineOf, Documents, UniqueVersions;
    DocumentsPermutation(rows, other);
    var make := (id: string) =>
      if Ordered(rows, id) != [] then TimelineOf(lower, rows, id) else Timeline(id, "", "", "", [], []);
    assert TimelinesOf(lower, rows, Documents(rows)) == Map(Documents(rows), make);
    forall k | 0 <= k < |Documents(other)|
      ensures TimelineOf(lower, other, Documents(other)[k]) == make(Documents(other)[k])
    {
      OrderedForgetsOrder(rows, other, Documents(other)[k]);
      SameTimeline(lower, rows, other, Documents(other)[k]);
    }
    assert TimelinesOf(lower, other, Documents(other)) == Map(Documents(other), make);
    MapPermutation(Documents(rows), Documents(other), make);
  }

  lemma TimelineOrderPreorder(collate: (string, string) -> bool)
    requires TotalPreorder(collate)
    ensures TotalPreorder(TimelineOrder(collate))
  {
    var order := TimelineOrder(collate);
    forall x, y ensures order(x, y) || order(y, x) {
      assert collate(x.title, y.title) || collate(y.title, x.title);
      assert collate(x.documentId, y.documentId) || collate(y.documentId, x.documentId);
    }
    forall x, y, z | order(x, y) && order(y, z) ensures order(x, z) {
      assert collate(x.title, z.title);
      if collate(z.title, x.title) {
        assert collate(y.title, x.title) && collate(z.title, y.title);
        assert collate(x.documentId, y.documentId) && collate(y.documentId, z.documentId);
      }
    }
  }

  lemma TimelinesSeparated(lower: string -> string, collate: (string, string) -> bool, rows: seq<Row>, i: nat, j: nat)
    requires Collation(collate, rows) && i < |Documents(rows)| && j < |Documents(rows)|
    requires Ordered(rows, Documents(rows)[i]) != [] && Ordered(rows, Documents(rows)[j]) != []
    requires var x, y := TimelineOf(lower, rows, Documents(rows)[i]), TimelineOf(lower, rows, Documents(rows)[j]);
             Precedes(collate, x, y) && Precedes(collate, y, x)
    ensures Documents(rows)[i] == Documents(rows)[j]
  {
    var a, b := Ordered(rows, Documents(rows)[i])[0], Ordered(rows, Documents(rows)[j])[0];
    OrderedMembers(rows, Documents(rows)[i], a);
    OrderedMembers(rows, Documents(rows)[j], b);
  }

  lemma CollationOrders(collate: (string, string) -> bool, rows: seq<Row>)
    requires Collation(collate, rows)
    ensures TotalPreorder(collate)
  {
  }

  /** The timelines depend only on the set of rows: any order the database returns them in gives the
      same result, when (document, version number) is unique and the collation separates document ids. */
  lemma TimelinesForgetOrder(lower: string -> string, collate: (string, string) -> bool, rows: seq<Row>,
                             other: seq<Row>)
    requires multiset(rows) == multiset(other) && UniqueVersions(rows) && Collation(collate, rows)
    ensures Timelines(lower, collate, rows) == Timelines(lower, collate, other)
  {
    hide Ordered, TimelineOf, Documents, UniqueVersions, Collation, Precedes, StableSort;
    DocumentsHaveRows(rows);
    DocumentsHaveRows(other);
    CollationOrders(collate, rows);
    TimelinesPermutation(lower, rows, other);
    TimelineOrderPreorder(collate);
    var here, order := TimelinesOf(lower, rows, Documents(rows)), TimelineOrder(collate);
    forall x, y | x in here && y in here && order(x, y) && order(y, x) ensures x == y {
      var i :| 0 <= i < |here| && here[i] == x;
      var j :| 0 <= j < |here| && here[j] == y;
      TimelinesSeparated(lower, collate, rows, i, j);
    }
    SortForgetsOrder(here, TimelinesOf(lower, other, Documents(other)), order);
  }

  /** There is one timeline for each document that has a row, and they come by title and, under one title, by
      document id, as the collation has them. */
  lemma TimelinesInOrder(lower: string -> string, collate: (string, string) -> bool, rows: seq<Row>)
    requires TotalPreorder(collate)
    ensures var ts := Timelines(lower, collate, rows);
            && (forall i, j :: 0 <= i < j < |ts| ==>
                  && collate(ts[i].title, ts[j].title) && ts[i].documentId != ts[j].documentId
                  && (collate(ts[j].title, ts[i].title) ==> collate(ts[i].documentId, ts[j].documentId)))
            && (forall k :: 0 <= k < |ts| ==>
                  var id := ts[k].documentId;
                  Ordered(rows, id) != [] && ts[k] == TimelineOf(lower, rows, id))
            && (forall row :: row in rows ==> exists k :: 0 <= k < |ts| && ts[k].documentId == row.documentId)
  {
    hide Ordered, TimelineOf, Documents, StableSort;
    DocumentsHaveRows(rows);
    TimelineOrderPreorder(collate);
    var ids := Documents(rows);
    var built, ts := TimelinesOf(lower, rows, ids), Timelines(lower, collate, rows);
    SortSorts(built, TimelineOrder(collate));
    forall k | 0 <= k < |ids| ensures built[k].documentId == ids[k] {
      TimelineNamesItsDocument(lower, rows, ids[k]);
    }
    DocumentsDistinct(rows);
    SortKeeps(built, TimelineOrder(collate));
    SortedDistinct(built, ts);
    forall i, j | 0 <= i < j < |ts|
      ensures collate(ts[i].title, ts[j].title)
      ensures collate(ts[j].title, ts[i].title) ==> collate(ts[i].documentId, ts[j].documentId)
    {
      assert TimelineOrder(collate)(ts[i], ts[j]);
    }
    forall k | 0 <= k < |ts|
      ensures var id := ts[k].documentId; Ordered(rows, id) != [] && ts[k] == TimelineOf(lower, rows, id)
    {
      SortMembers(built, TimelineOrder(collate), ts[k]);
      var m :| 0 <= m < |built| && built[m] == ts[k];
    }
    forall row | row in rows ensures exists k :: 0 <= k < |ts| && ts[k].documentId == row.documentId {
      RowHasDocument(rows, row);
      var m :| 0 <= m < |ids| && ids[m] == row.documentId;
      SortMembers(built, TimelineOrder(collate), built[m]);
      var k :| 0 <= k < |ts| && ts[k] == built[m];
    }
  }

  lemma TimelineNamesItsDocument(lower: string -> string, rows: seq<Row>, id: string)
    requires Ordered(rows, id) != []
    ensures TimelineOf(lower, rows, id).documentId == id
  {
  }

  lemma RowHasDocument(rows: seq<Row>, row: Row)
    requires row in rows
    ensures row.documentId in Documents(rows)
  {
    DocumentsHold(rows, row.documentId);
    FilterMembers(rows, OfDocument(row.documentId), row);
  }

  lemma ListedTwice(names: seq<string>, i: nat, j: nat)
    requires i < j < |names| && names[i] == names[j]
    ensures multiset(names)[names[i]] >= 2
  {
    TakeOut(names, j);
    assert Without(names, j)[i] == names[i];
    assert names[i] in multiset(Without(names, j));
  }

  function NameOf(t: Timeline): string { t.documentId }

  /** Rearranging timelines of different documents leaves no document twice. */
  lemma SortedDistinct(ts: seq<Timeline>, us: seq<Timeline>)
    requires multiset(ts) == multiset(us)
    requires forall i, j :: 0 <= i < j < |ts| ==> ts[i].documentId != ts[j].documentId
    ensures forall i, j :: 0 <= i < j < |us| ==> us[i].documentId != us[j].documentId
  {
    MapPermutation(ts, us, NameOf);
    var names := Map(us, NameOf);
    forall i, j | 0 <= i < j < |us| ensures us[i].documentId != us[j].documentId {
      DistinctMultiplicity(Map(ts, NameOf), names[i]);
      if names[i] == names[j] {
        ListedTwice(names, i, j);
        assert false;
      }
    }
  }

  // ---- no row is lost ------------------------------------------------------------------------

  /** The columns a timeline publishes of a row, with the document they are published under. */
  datatype Filing = Filing(documentId: string, versionId: string, versionNo: int, firstSeen: int, sha256: string,
                           byteSize: int, itemCount: Option<nat>)

  /** How many items a row's snapshot holds, if it can be read. */
  function StoredCount(row: Row): Option<nat> {
    if row.snapshot.Array? && Snapshot(row.snapshot).Some? then Some(|row.snapshot.elements|) else None
  }

  function OnFile(row: Row): Filing {
    Filing(row.documentId, row.versionId, row.versionNo, row.firstSeen, row.sha256, row.byteSize, StoredCount(row))
  }

  function Published(documentId: string): Version -> Filing {
    (v: Version) => Filing(documentId, v.id, v.versionNo, v.firstSeen, v.sha256, v.byteSize, v.itemCount)
  }

  lemma PublishedAsFiled(row: Row)
    ensures Published(row.documentId)(VersionOf(row)) == OnFile(row)
  {
  }

  /** A timeline's versions, column by column. */
  function Entries(t: Timeline): multiset<Filing> { multiset(Map(t.versions, Published(t.documentId))) }

  /** Every version of every timeline. */
  function Filings(timelines: seq<Timeline>): multiset<Filing> {
    if timelines == [] then multiset{} else Filings(timelines[1..]) + Entries(timelines[0])
  }

  lemma {:induction false} EntriesTakeOut(ts: seq<Timeline>, k: nat)
    requires k < |ts|
    ensures Filings(ts) == Filings(Without(ts, k)) + Entries(ts[k])
  {
    hide Entries;
    if k == 0 {
      assert Without(ts, 0) == ts[1..];
    } else {
      EntriesTakeOut(ts[1..], k - 1);
      assert Without(ts, k)[1..] == Without(ts[1..], k - 1);
    }
  }

  lemma {:induction false} EntriesPermutation(ts: seq<Timeline>, us: seq<Timeline>)
    requires multiset(ts) == multiset(us)
    ensures Filings(ts) == Filings(us)
    decreases |ts|
  {
    assert |ts| == |multiset(ts)| == |multiset(us)| == |us|;
    if ts == [] {
    } else {
      var k := SameHead(ts, us);
      EntriesTakeOut(ts, 0);
      EntriesTakeOut(us, k);
      EntriesPermutation(Without(ts, 0), Without(us, k));
    }
  }

  lemma EntriesOfDocument(lower: string -> string, rows: seq<Row>, id: string)
    requires Ordered(rows, id) != []
    ensures Entries(TimelineOf(lower, rows, id)) == multiset(Map(Filter(rows, OfDocument(id)), OnFile))
  {
    var ordered, t := Ordered(rows, id), TimelineOf(lower, rows, id);
    forall k | 0 <= k < |ordered| ensures Published(id)(t.versions[k]) == OnFile(ordered[k]) {
      OrderedMembers(rows, id, ordered[k]);
      PublishedAsFiled(ordered[k]);
    }
    assert Map(t.versions, Published(id)) == Map(ordered, OnFile);
    SortKeeps(Filter(rows, OfDocument(id)), VersionOrder);
    MapPermutation(ordered, Filter(rows, OfDocument(id)), OnFile);
  }

  function OfDocuments(ids: seq<string>): Row -> bool { (row: Row) => row.documentId in ids }

  lemma {:induction false} FilterFirstDocument(rows: seq<Row>, ids: seq<string>)
    requires ids != [] && ids[0] !in ids[1..]
    ensures multiset(Map(Filter(rows, OfDocuments(ids)), OnFile)) ==
            multiset(Map(Filter(rows, OfDocuments(ids[1..])), OnFile)) +
            multiset(Map(Filter(rows, OfDocument(ids[0])), OnFile))
  {
    if rows == [] {
    } else {
      FilterFirstDocument(rows[..|rows| - 1], ids);
      assert ids == [ids[0]] + ids[1..];
      MapFilterStep(rows, OfDocuments(ids), OnFile);
      MapFilterStep(rows, OfDocuments(ids[1..]), OnFile);
      MapFilterStep(rows, OfDocument(ids[0]), OnFile);
    }
  }

  lemma FilingsOfFirst(lower: string -> string, rows: seq<Row>, ids: seq<string>)
    requires ids != [] && forall k :: 0 <= k < |ids| ==> Ordered(rows, ids[k]) != []
    ensures Filings(TimelinesOf(lower, rows, ids)) ==
            Filings(TimelinesOf(lower, rows, ids[1..])) + Entries(TimelineOf(lower, rows, ids[0]))
  {
    hide TimelineOf, Entries, Ordered;
    assert TimelinesOf(lower, rows, ids)[1..] == TimelinesOf(lower, rows, ids[1..]);
  }

  lemma {:induction false} EntriesOfDocuments(lower: string -> string, rows: seq<Row>, ids: seq<string>)
    requires forall i, j :: 0 <= i < j < |ids| ==> ids[i] != ids[j]
    requires forall k :: 0 <= k < |ids| ==> Ordered(rows, ids[k]) != []
    ensures Filings(TimelinesOf(lower, rows, ids)) == multiset(Map(Filter(rows, OfDocuments(ids)), OnFile))
  {
    if ids == [] {
      FilterNone(rows, OfDocuments(ids));
    } else {
      hide Filter, TimelineOf, Entries, OfDocuments, Ordered;
      EntriesOfDocuments(lower, rows, ids[1..]);
      FilingsOfFirst(lower, rows, ids);
      EntriesOfDocument(lower, rows, ids[0]);
      FilterFirstDocument(rows, ids);
    }
  }

  /** No row is lost or filed twice: column by column, the timelines' versions are exactly the rows, each
      as one version of its own document's timeline. */
  lemma EveryRowIsOneVersion(lower: string -> string, collate: (string, string) -> bool, rows: seq<Row>)
    ensures Filings(Timelines(lower, collate, rows)) == multiset(Map(rows, OnFile))
  {
    DocumentsHaveRows(rows);
    DocumentsDistinct(rows);
    var ids := Documents(rows);
    var built := TimelinesOf(lower, rows, ids);
    SortKeeps(built, TimelineOrder(collate));
    EntriesPermutation(StableSort(built, TimelineOrder(collate)), built);
    EntriesOfDocuments(lower, rows, ids);
    forall row | row in rows ensures OfDocuments(ids)(row) {
      DocumentsHold(rows, row.documentId);
      FilterMembers(rows, OfDocument(row.documentId), row);
    }
    FilterAll(rows, OfDocuments(ids));
  }
}
