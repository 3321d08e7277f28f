# NCF Changelog: the changeset engine

The NCF Changelog QGIS processing tool compares two versions of a
ChannelReach polygon layer, an old one and a new one. Reaches are matched by
an identifier field (the IDPK). The tool writes:

- a CSV changelog with one row per reach that was removed, added or changed;
- a geospatial layer holding the geometries behind those rows, each tagged
  with the layer it came from.

This project models the engine inside `processAlgorithm`:

- the input checks;
- the split of identifiers into removed, added and common keys;
- the construction of every changelog row, and of the "Changed …" label of
  a common key;
- the sort of the changelog by key, the CSV header and the geospatial schema;
- the plan of written features: which key is written under which ID, from
  which layer.

It then proves what those steps promise.

Modules:

- `Values`: attribute values, a feature and a layer.
- `KeyOrder`: Python's string order, and a sort proved independent of the
  order its input arrives in.
- `Label`: the type label.
- `Rows`: the three row layouts and the loops that build them.
- `Changeset`: the key partition and the `data` dictionary the two main
  loops produce.
- `Table`: the header and the sorted table.
- `Emission`: the three emission loops and their ID bands.
- `Changelog`: the whole algorithm, and the lemmas that join the parts
  together.

Conventions:

- Python sets and dictionaries are iterated in an order the program does not
  fix. Every such order is a parameter, constrained only to list each
  element once (`KeyOrder.Enumerates`). Every result is proved for all such
  orders.
- A feature is its attribute map plus its area, already reprojected, rounded
  and formatted to seven decimals. The area is kept as the string it is
  compared as.
- A missing attribute and a JSON null both read as `Null`, as `dict.get`
  after `FixDictionary` gives None for both.

For three or more names the expression at NCFChangelog.py:115 puts a comma
before the ampersand: "Changed A, B, & C". `Label.ChangeLabelReads` states
this form.

The header is built with `QgsFields.append` (NCFChangelog.py:146-153), which
refuses a field whose name is already present. The model's `Table.Append`
does the same. The 2n+4 titles offered are therefore kept only once each.
When two titles coincide, the header is shorter than the rows written
under it. For example, two layers with the same name and a shared field
name give repeated titles (`Table.HeaderWithRepeats`). The geospatial
schema (165-168) goes through the same appends. It always keeps ID, the
whole header and GeometrySource, because no title can be "ID" or
"GeometrySource".

The IDs of the written features come in three bands:

- removed keys get 0 … R−1;
- added keys get R … R+A−1;
- changed keys start at R+A+1, because the counter is incremented before
  its first use (NCFChangelog.py:198-201).

So ID R+A is never written. `Emission.PlanBands` states this as the code
behaves.

## Model

| member | source | states |
|---|---|---|
| Changelog.Validate | NCFChangelog.py:67-79 | The algorithm proceeds exactly when both layers have features and the field lists have equal length. Otherwise it fails with the first failing check, in source order: old layer, new layer, field count. |
| Changelog.ProcessAlgorithm | NCFChangelog.py:65-216 | It fails exactly when the checks fail, with their error. On success its outputs are: the changeset `Changes`; the header, which holds the offered titles as `QgsFields` keeps them; the geospatial schema, which is ID, that header and GeometrySource; the changeset rows sorted by key, the same whichever order `data` was filled in; and the emission plan. |
| Changelog.ChangesHaveAreas | NCFChangelog.py:119-139 | Every changeset row has at least two entries, so the test at line 209 is defined. |
| Changelog.TableMatchesHeader | NCFChangelog.py:145-160 | The CSV has one row per changeset key, and each row starts with its key. The keys strictly ascend. Every row has 2·n+4 entries, never fewer than the header has names. A row is exactly as wide as the header iff no offered title repeats. |
| Changelog.SortedRowsKeyed | NCFChangelog.py:145 | Sorting keeps every row and its width, and the i-th row belongs to the i-th sorted key. |
| Changelog.ChangesKeyed | NCFChangelog.py:115-139 | Every changeset row has 2·n+4 entries and starts with its own key. |
| Changelog.DistinctCardinality | NCFChangelog.py:145 | A listing of a set with no repeats has as many entries as the set. |
| Changelog.AttributesMatchSchema | NCFChangelog.py:165-168 | A written feature carries its ID, its row and its source side: 2·n+6 values. That is never fewer than the schema has fields, and exactly as many iff no offered title repeats. |
| Changelog.ChangedKeysInPlan | NCFChangelog.py:197-216 | A key in both layers is written from the new layer iff it is in the changeset. It is also written from the old layer iff, in addition, its formatted areas differ. Each of these writes happens once, never twice. |
| Changelog.Example | NCFChangelog.py:98-216 | Worked example: R1 changed in f but not in area, and R2 is new. The rows are the Changed and Added rows shown. The plan writes R2 as ID 0 and R1 as ID 2, both from the new layer, so ID 1 is skipped. |
| Changelog.ExampleChanges | NCFChangelog.py:106-127 | The example's changeset is exactly the two rows shown. |
| Changelog.ExampleRows | NCFChangelog.py:115-127 | The example's Changed row (label "Changed f") and Added row, entry by entry. |
| Changelog.ExampleWhatChanged | NCFChangelog.py:108-113 | In the example, only f is listed as changed. |
| Changelog.ExamplePlan | NCFChangelog.py:171-216 | The example's emission plan, entry by entry. |
| KeyOrder.LessIrreflexive | NCFChangelog.py:145 | No key is below itself. |
| KeyOrder.LessAsymmetric | NCFChangelog.py:145 | Two keys are never each below the other. |
| KeyOrder.LessTransitive | NCFChangelog.py:145 | The key order is transitive. |
| KeyOrder.LessTotal | NCFChangelog.py:145 | Any two distinct keys are ordered one way or the other. |
| KeyOrder.Insert | NCFChangelog.py:145 | Insertion keeps every key and adds exactly one. |
| KeyOrder.SortKeys | NCFChangelog.py:145 | The sort is a permutation of its input. |
| KeyOrder.InsertSorted | NCFChangelog.py:145 | Inserting a new key into a strictly sorted list leaves it strictly sorted. |
| KeyOrder.SortKeysSorted | NCFChangelog.py:145 | The sort of distinct keys is strictly ascending. |
| KeyOrder.DistinctFromMultiset | NCFChangelog.py:145 | A permutation of a list without repeats has no repeats. |
| KeyOrder.DistinctCount | NCFChangelog.py:145 | In a list without repeats every key occurs once. |
| KeyOrder.SortedUnique | NCFChangelog.py:145 | Two strictly sorted lists of the same keys are equal. |
| KeyOrder.SortKeysOfEnumeration | NCFChangelog.py:145 | Sorting any listing of a key set gives a strictly ascending listing of that set, the same for every listing. |
| Label.JoinSnoc | NCFChangelog.py:115 | Joining a list with one more part appends the separator and that part. |
| Label.ChangeLabelReads | NCFChangelog.py:115 | The label of a non-empty list is "Changed A", "Changed A & B", or "Changed A, B, …, & Z" with a comma before the ampersand. |
| Label.ChangeLabelExamples | NCFChangelog.py:115 | "Changed A", "Changed A & B", "Changed A, B, & C". |
| Rows.InterleaveAt | NCFChangelog.py:116-118 | Interleaving pairs has twice the length, old values at even and new values at odd positions. |
| Rows.AddedRowShape | NCFChangelog.py:122-126 | An Added row is key, "Added", (Null, new value) per field, Null, new area. |
| Rows.RemovedRowShape | NCFChangelog.py:134-138 | A Removed row is key, "Removed", (old value, Null) per field, old area, Null. |
| Rows.ChangedRowShape | NCFChangelog.py:115-119 | A Changed row is key, label, (old value, new value) for every field pair whether it changed or not, old area, new area. |
| Rows.BuildAddedRow | NCFChangelog.py:122-126 | The loop builds exactly the Added row. |
| Rows.BuildRemovedRow | NCFChangelog.py:134-138 | The loop builds exactly the Removed row. |
| Rows.BuildChangedRow | NCFChangelog.py:115-119 | The loop builds exactly the Changed row. |
| Changeset.Partition | NCFChangelog.py:98-100 | Removed, added and common keys are pairwise disjoint and together cover both layers. Common keys are the intersection; removed keys are old only and added keys are new only. |
| Changeset.DiffIndices | NCFChangelog.py:109-111 | Every listed position is within the range scanned. |
| Changeset.DiffIndicesExact | NCFChangelog.py:109-111 | A position is listed iff its old and new values differ, and positions ascend. |
| Changeset.WhatChangedEmpty | NCFChangelog.py:108-114 | Nothing is listed exactly when every field pair and the area agree. |
| Changeset.CollectChanges | NCFChangelog.py:108-113 | The loop computes `what_changed` as specified. |
| Changeset.ChangesDomain | NCFChangelog.py:106-139 | Removed and added keys always get a row. A common key gets one iff some field pair or the area differs. No other key gets one. |
| Changeset.ChangesRowShape | NCFChangelog.py:115-139 | Every row has the layout of its kind and 2·n+4 entries. For a common key the last two entries differ iff the areas differ. |
| Changeset.ChangedLabelReads | NCFChangelog.py:114-115 | A common key in the changeset lists something, and its label names it, as in `Label.ChangeLabelReads`. |
| Changeset.ChangesFrom | NCFChangelog.py:106-139 | Any map with exactly the retained keys, each with its row, is the changeset. |
| Changeset.AddNewFeatures | NCFChangelog.py:106-127 | The first loop fills `data` with exactly the retained keys of the new layer and their rows. |
| Changeset.AddRemoved | NCFChangelog.py:133-139 | The second loop adds exactly the removed keys with their Removed rows and keeps the earlier entries. |
| Changeset.BuildData | NCFChangelog.py:102-139 | Both loops together produce exactly the changeset, for any iteration order. |
| Table.HeaderShape | NCFChangelog.py:146-153 | The titles offered to the header are ChannelReachIDPK, Type, the old/new title pairs in field order, then the two area titles: 2·n+4 titles. |
| Table.BuildHeader | NCFChangelog.py:146-153 | The appends build exactly the offered titles as `QgsFields` keeps them. |
| Table.FieldListMembers | NCFChangelog.py:146-153 | Appending a list of names keeps exactly the names offered, each once, and never more of them than were offered. |
| Table.FieldListOfDistinct | NCFChangelog.py:146-153 | Names without repeats are all kept, in the order offered. |
| Table.FieldListDropsRepeats | NCFChangelog.py:146-153 | When a name is offered twice, fewer names are kept than offered. |
| Table.FieldListLength | NCFChangelog.py:146-153 | Every offered name is kept iff none repeats. |
| Table.HeaderWidth | NCFChangelog.py:146-153 | The header holds each offered title exactly once and at most 2·n+4 names. It has all 2·n+4 iff no title repeats, and then it is the offered list. |
| Table.HeaderWithRepeats | NCFChangelog.py:146-153 | Two layers with the same name sharing field "Name": six titles are offered, and the header keeps four. |
| Table.TitledAvoidsSchemaNames | NCFChangelog.py:147-153 | No offered title is "ID" or "GeometrySource". |
| Table.GeoHeaderShape | NCFChangelog.py:165-168 | The geospatial schema is ID, the whole header in order, then GeometrySource: none is refused. |
| Table.SortedItems | NCFChangelog.py:145 | The sorted changeset lists every key once, in strictly ascending order, each with its own row. |
| Table.SortedItemsIndependent | NCFChangelog.py:145 | The sorted changeset does not depend on the order `data` was filled in. |
| Emission.Kept | NCFChangelog.py:199 | The filtered common keys are exactly the common keys that have a row. |
| Emission.KeptDistinct | NCFChangelog.py:199 | Filtering keeps keys unique. |
| Emission.EmitRemoved | NCFChangelog.py:172-178 | The removed loop writes each removed key at its position, from the old layer. |
| Emission.EmitAdded | NCFChangelog.py:185-191 | The added loop writes each added key at R plus its position, from the new layer. |
| Emission.EmitChanged | NCFChangelog.py:198-216 | The changed loop writes the changed band. |
| Emission.EmissionPlan | NCFChangelog.py:171-216 | The three loops write removed band, added band and changed band, in that order. |
| Emission.ChangedBandIds | NCFChangelog.py:198-210 | The a-th feature of the changed band has ID counter+1+a: IDs start at counter+1 and go up by one per written feature. |
| Emission.ChangedBandKeys | NCFChangelog.py:200-216 | The changed band writes only the keys it is given. |
| Emission.ChangedBandSides | NCFChangelog.py:200-216 | Every kept key is written from the new layer. It is written from the old layer iff its row's last two entries differ. |
| Emission.ChangedBandOldAfterNew | NCFChangelog.py:201-215 | Every Old feature directly follows the New feature of the same key with the previous ID, and the band starts with a New feature. |
| Emission.ChangedBandNewThenOld | NCFChangelog.py:206-215 | A New feature is followed by an Old one exactly when its row's last two entries differ. |
| Emission.ChangedBandLength | NCFChangelog.py:200-216 | The band has one feature per key plus one per key whose last two entries differ. |
| Emission.PlanBands | NCFChangelog.py:171-216 | Removed keys get IDs 0…R−1 from the old layer and added keys R…R+A−1 from the new layer. The feature at position j has ID j before R+A and j+1 from there on. So ID R+A is never written. |
| Emission.PlanFront | NCFChangelog.py:171-195 | Removed keys are written first under their positions from the old layer. Added keys follow under R plus their positions from the new layer. |
| Emission.PlanBack | NCFChangelog.py:197-216 | After them come the kept changed keys. The feature at position j has ID j+1, so the band starts at R+A+1. There is one feature per kept key plus one per key whose last two entries differ. |
| Emission.RemovedBandOnly | NCFChangelog.py:172-178 | The removed loop writes no key outside the removed list. |
| Emission.AddedBandOnly | NCFChangelog.py:185-191 | The added loop writes no key outside the added list. |
| Emission.ChangedBandOnly | NCFChangelog.py:200-216 | The changed loop writes no key outside the kept list. |
| Emission.PlanIdsIncrease | NCFChangelog.py:171-216 | IDs strictly increase along the plan, so no two features share one. |
| Emission.PlanSides | NCFChangelog.py:197-216 | A key neither removed nor added is written from the new layer iff it is a kept changed key. It is written from the old layer iff, in addition, its row's last two entries differ. |
| Emission.ChangedBandCounts | NCFChangelog.py:198-216 | Over distinct keys, each key is written from the new layer exactly once. It is written from the old layer once if its row's last two entries differ and never otherwise. |
| Emission.PlanCounts | NCFChangelog.py:171-216 | Take a key that is neither removed nor added. It is written from the new layer once if it is a kept changed key, and never otherwise. It is written from the old layer once if, in addition, its row's last two entries differ, and never otherwise. |
| Emission.UntaggedAppend | NCFChangelog.py:171-216 | Blanking IDs distributes over concatenation. |

## Left out

- The plugin metadata, parameter declarations and translations (NCFChangelog.py:1-63) are not modelled: they are declarations and do not compute.
- Layer loading: a layer that fails to load, is None or is not a polygon layer raises the same error as an empty layer. The model has no layer type, so only the zero-feature case is modelled.
- CRS reprojection of the old layer, done in place in the layer (NCFChangelog.py:87-92), is not modelled: it is geometry work. So are the area computation and its rounding and formatting (94, 96). Each feature carries its formatted area string.
- `FixDictionary`'s JSON-to-Python conversion (83-85, 95, 97) is not modelled: a feature's attributes are given as a map.
- Duplicate identifiers within one layer are not modelled: a dictionary keeps the last feature per key, and the model starts from that dictionary.
- CSV file writing (157-160) is not modelled: it is I/O. The model yields the header and the rows handed to the writer.
- Sink creation, feature filtering by expression and `addFeature` (169, 173-178, 186-191, 202-216) are I/O. Each key is assumed to match exactly one feature in its layer. NULL substitution for None is the identity on `Value`.
- Progress reporting and cancellation (80-81, 101, 103-104, 129-131, 141-143, 154-155, 161-163, 180-182, 193-195, 218-220) are not modelled: they do not affect the result when the run is not cancelled.
- KeyOrder.SortKeys: Python's `sorted` is modelled as an insertion sort. Only the result is modelled, which is unique for distinct keys, not the algorithm.
- Values.Value: numbers are reals, not IEEE doubles. Values are compared only for equality, as the code compares them.
- Field types are not modelled: every field is created as a string field (147-153, 166, 168), so a field is its name. `extend` (167) is modelled as one append per field.
- Keys are modelled as strings. Integer identifier fields, and their ordering, are not modelled.
