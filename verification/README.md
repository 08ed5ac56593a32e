# 311 service requests: the `/submit` pipeline

The repository is a small Flask front end for a model that classifies New York
City 311 service requests. Its one piece of real logic is the `/submit`
handler `make_prediction`. The handler turns the form's query parameters into
a record, clusters it with a pre-trained k-modes model, relabels the cluster,
and one-hot encodes the record against a frozen list of 108 reference columns.
It then hands that vector to a pre-trained classifier and renders a
confirmation page. The handler exists in three drafts:

- `app.py`: the full pipeline, including encoding and classification.
- `app2.py`: the same record, clustering and relabelling, with no encoding stage.
- `test.py`: an earlier draft. It has a single `descriptor` parameter, a fixed
  channel `ONLINE` and no `none` override.

This project models all three drafts as pure functions over immutable data:

- `Request`: the query parameters as a `map<string, string>`, and the two
  ways a request aborts before rendering. Reading an absent parameter is
  `MissingParameter`. Rendering a page whose `descriptor` was never assigned
  is `DescriptorUnset`.
- `Normalizer`: the 27-entry `renamed` table and the loop that applies it.
  The loop is proved equal to a single dictionary lookup, and proved
  idempotent.
- `Descriptor`: the scan over the twenty descriptor fields, where the last
  non-empty field wins. This is followed by the `none` override for the seven
  descriptor-less complaint types.
- `Cluster`: the `cluster_names` relabelling loop, proved equal to a lookup.
  Also here is the text `get_dummies` uses for a cluster value.
- `Complaint`: the handler's `data` dict (`Record`), the values the page shows
  (`Confirmation`), and the record builder shared by `app.py` and `app2.py`.
  The builder reads its parameters in source order, so it reports the first
  missing one.
- `Encoding`: one-hot encoding of a one-row frame, and the drop/insert
  reconciliation against a reference list, for any reference list.
- `Reference`, `ReferenceOrder`: the 108 `dummy_columns`, written as six
  groups `<field>_<value>`. The value lists of every group are proved to be
  in strictly ascending order, which proves the whole list duplicate-free.
  `Order` holds the string order used for that.
- `Features`: the record's cells and the encoded vector. It is proved to span
  exactly the 108 reference columns, once each. A column `<field>_<value>`
  holds 1 exactly when the record has that value.
- `App2`, `App`, `Draft`: the three handlers end to end. The k-modes model and
  the classifier are function parameters (`predictCluster`, `classify`).

## Definitions

These functions define a step of the pipeline; the lemmas in the table below
state what they mean.

- `Request.Param` (app.py:22-27): `request.args[name]`, the value when the
  request carries `name` and `MissingParameter(name)` otherwise. Its callers'
  behaviour is stated by `Complaint.ReadRecordErrors` and `Draft.SubmitErrors`.
- `Complaint.Required` (app.py:23-51): the parameters the handler reads, in
  reading order. `Complaint.RequiredPresent` states when all are present.
- `Encoding.OneHot` (app.py:126): `get_dummies` on a one-row frame.
  `Features.OneHotNames` states that its columns are duplicate-free and are
  exactly the record's `<field>_<value>` names.
- `Reference.Prefixed` (app.py:128-237): one group of reference columns.
  `Reference.PrefixedMember` states which names it contains and
  `ReferenceOrder.PrefixedDistinct` that it lists none twice.
- `Features.Cells` (app.py:23-28): the `data` dict in insertion order.
  `Features.CellsWellKeyed` states that its keys are distinct encoded fields,
  with a `descriptor` key exactly when a descriptor was assigned.

## Model

| member | source | states |
|---|---|---|
| `Normalizer.AsMapLookup` | app.py:53-81 | the `renamed` literal read as a dictionary (a later entry overwriting an earlier one) maps every token to its entry's label and has no other key, when no token repeats |
| `Normalizer.LoopKeepsFixedPoint` | app.py:84-86 | a complaint type that every matching entry maps to itself comes out of the renaming loop unchanged |
| `Normalizer.RenameLoopIsLookup` | app.py:84-86 | on a table with distinct tokens whose labels are never a token mapped elsewhere, the sequential loop equals one dictionary lookup, with the identity for unknown tokens |
| `Normalizer.KeyUnique` | app.py:53-81 | no form token appears twice in `renamed` |
| `Normalizer.LabelSettled` | app.py:53-81 | a label that is also a token (`Vending`, `Animal-Abuse`, ...) is only the token of an entry that maps it to itself |
| `Normalizer.RenameTableWellFormed` | app.py:53-81 | `renamed` has distinct tokens and settled labels, the two facts the lookup and idempotence proofs need |
| `Normalizer.NormalizeIsLookup` | app.py:53-86 | the normalised complaint type is `renamed[t]` when `t` is a token of the table and `t` unchanged otherwise |
| `Normalizer.NormalizeEntry` | app.py:53-86 | each form token of the table normalises to its own display label |
| `Normalizer.NormalizeIdempotent` | app.py:53-81 | normalising an already normalised complaint type changes nothing |
| `Descriptor.ScanFailsOnFirstMissing` | app.py:89-91 | the descriptor scan aborts exactly when some descriptor field is absent from the request, naming the first absent one in list order |
| `Descriptor.ScanLastWins` | app.py:30-91 | with every field present, the scan yields the value of the last non-empty field in the order of `descriptors` (app.py:30-51) as the scan at app.py:89-91 walks it, and what it started with when all are empty |
| `Descriptor.LastNonEmptyExists` | app.py:89-91 | when some descriptor field is non-empty, one of them is the last non-empty field |
| `Descriptor.NoiseHasDescriptor` | app.py:94 | no descriptor-less complaint type starts with `N`, so every noise type and `Non-Emergency Police Matter` has descriptors |
| `Descriptor.SelectDescriptorSpec` | app.py:89-97 | with every field present, the descriptor is `none` for a descriptor-less normalised type whatever the fields hold, otherwise the last non-empty field; it is unassigned exactly when the type is not descriptor-less and every field is empty |
| `Descriptor.OnlyFilledFieldSelected` | app.py:89-91 | a request filling in exactly one descriptor field, of a type with descriptors, gets that field's value |
| `Complaint.RequiredPresent` | app.py:23-51 | all parameters are present exactly when the four copied keys and every descriptor field are |
| `Complaint.ReadRecordErrors` | app.py:23-91 | building the record fails exactly when a parameter is missing, and the error names the first missing parameter in reading order |
| `Complaint.ReadRecordFields` | app.py:23-28 | with every parameter present the record is built with borough, location type and channel copied unchanged and the complaint type normalised |
| `Complaint.ReadRecordDescriptor` | app.py:84-97 | the record's descriptor is `none` for a descriptor-less normalised type; otherwise the last non-empty field; it is absent exactly when the type has descriptors and every field is empty |
| `Cluster.FirstIdIndex` | app.py:117-119 | the index of the first `cluster_names` entry with a given id, or -1 when no entry has it |
| `Cluster.RelabelKeepsName` | app.py:117-119 | a cluster value that is already a name passes through the relabelling loop unchanged |
| `Cluster.RelabelLoopIsLookup` | app.py:117-119 | the relabelling loop gives an id the name of its first matching entry, and leaves an unmatched id or a name unchanged |
| `Cluster.RelabelSpec` | app.py:109-119 | ids 0 to 4 become `Noise Brooklyn`, `Noise Queens`, `Parking Queens`, `Driveway Queens` and `Parking Manhattan`; any other id is unchanged |
| `Cluster.RelabelIsLookup` | app.py:109-119 | relabelling id `k` gives the name at index `k` for `0 <= k < 5` and `Id(k)` otherwise |
| `Cluster.Digits` | app.py:126 | the decimal text of a natural number, as `get_dummies` writes a cluster id, starts with a digit |
| `Encoding.DropUnknownMembers` | app.py:239-245 | a generated column survives the drop exactly when its name is a reference column |
| `Encoding.DropUnknownNames` | app.py:239-245 | the surviving column names are exactly the generated names that are reference columns |
| `Encoding.DropUnknownKeepsOrder` | app.py:239-245 | the drop keeps surviving columns in their generated order |
| `Encoding.DropUnknownDistinct` | app.py:239-245 | dropping never introduces a duplicate column |
| `Encoding.AppendMissingSpec` | app.py:247-250 | the insert loop keeps the frame as a prefix and appends only zero-valued reference columns the frame lacked; afterwards every reference column is present, and no duplicate is created |
| `Encoding.MissingIgnoresExtra` | app.py:248-250 | a non-reference column in the frame does not change which reference columns get inserted |
| `Encoding.AppendMissingOrder` | app.py:248-250 | on a duplicate-free reference list, the insert loop appends exactly the missing reference columns at 0, in reference-list order |
| `Encoding.ReconcileShape` | app.py:239-250 | reconciliation yields exactly the reference columns as a set, without duplicates when the generated columns had none, and as many columns as the reference list when that list is duplicate-free too |
| `Encoding.ReconcileLayout` | app.py:239-250 | the reconciled frame is the surviving generated columns in generated order, followed by the missing reference columns at 0 in reference order |
| `Encoding.ReconcileIndicator` | app.py:239-250 | for a one-hot frame, a reconciled column holds 1 exactly when it was generated, and 0 when it was inserted |
| `Reference.DummyColumnsWidth` | app.py:128-237 | `dummy_columns` has 108 entries: 26 complaint types, 48 descriptors, 21 location types, 5 boroughs, 4 channels and 4 cluster names |
| `Reference.SeparatedNames` | app.py:126 | columns generated for two fields whose names differ in the first two characters never coincide |
| `Reference.SameFieldNames` | app.py:126 | a field's generated column name determines the value |
| `Reference.EncodedFieldsSeparated` | app.py:23-28 | the six encoded field names pairwise differ in their first two characters |
| `Reference.PrefixedMember` | app.py:128-237 | a field's column is in a group exactly when it is that group's field and the value is one of the group's values |
| `Reference.InDummyColumns` | app.py:128-237 | an encoded field's column `<field>_<value>` is in `dummy_columns` exactly when the value is one of that field's reference values |
| `ReferenceOrder.ComplaintTypesAscending` | app.py:129-154 | the complaint-type reference values are in strictly ascending order |
| `ReferenceOrder.DescriptorsHeadAscending` | app.py:155-177 | the first 23 descriptor reference values are in strictly ascending order |
| `ReferenceOrder.DescriptorsTailAscending` | app.py:178-202 | the last 25 descriptor reference values are in strictly ascending order |
| `ReferenceOrder.DescriptorsAscending` | app.py:155-202 | all 48 descriptor reference values are in strictly ascending order |
| `ReferenceOrder.LocationTypesAscending` | app.py:203-223 | the location-type reference values are in strictly ascending order |
| `ReferenceOrder.BoroughsAscending` | app.py:224-228 | the borough reference values are in strictly ascending order |
| `ReferenceOrder.ChannelsAscending` | app.py:229-232 | the channel reference values are in strictly ascending order |
| `ReferenceOrder.ClusterLabelsAscending` | app.py:233-236 | the cluster-name reference values are in strictly ascending order |
| `ReferenceOrder.PrefixedDistinct` | app.py:128-237 | a group built from duplicate-free values has no duplicate column |
| `ReferenceOrder.PrefixedDisjoint` | app.py:128-237 | groups of two different encoded fields share no column |
| `ReferenceOrder.GroupsDistinct` | app.py:128-237 | each of the six reference groups is duplicate-free |
| `ReferenceOrder.DummyColumnsDistinct` | app.py:128-237 | `dummy_columns` has no duplicate column |
| `Features.CellsWellKeyed` | app.py:23-107 | the dict has distinct encoded keys, and a `descriptor` key exactly when a descriptor was assigned |
| `Features.ColumnNameMatch` | app.py:126 | two generated columns of encoded fields coincide exactly when field and value do |
| `Features.OneHotNames` | app.py:126 | the generated columns are duplicate-free, and `<field>_<value>` is among them exactly when the record has that value |
| `Features.ColumnValue` | app.py:126-250 | in the reconciled vector, a column `<field>_<value>` holds 1 exactly when the record has that value for that field |
| `Features.FieldValueUnique` | app.py:23-107 | a field of the record holds one value |
| `Features.EncodeShape` | app.py:126-250 | the classifier's vector has exactly the 108 reference columns, each once |
| `Features.EncodeLayout` | app.py:239-250 | the vector is the record's columns that are reference columns, in `data` order, then the remaining reference columns at 0 in list order |
| `Features.EncodeFieldColumns` | app.py:126-250 | for a record value `x` of field `f`, column `<f>_<y>` holds 1 when `y` is `x` and 0 otherwise; when `x` has a reference column, that column is present with 1 |
| `Features.UnlistedValueGroupZero` | app.py:126-250 | a field whose value has no reference column contributes no 1: its whole group is 0 |
| `Features.NoDescriptorGroupZero` | app.py:89-97 | without an assigned descriptor, every descriptor column is 0 |
| `Features.DrivewayQueensGroupZero` | app.py:233-236 | cluster `Driveway Queens` has no reference column, so the cluster group is all 0 |
| `Features.UnnamedClusterGroupZero` | app.py:117-126 | an unrelabelled integer cluster id has no reference column, so the cluster group is all 0 |
| `Features.AbandonedVehicleGroupZero` | app.py:129-154 | complaint type `Abandoned Vehicle` has no reference column, so the complaint-type group is all 0 |
| `Features.EncodeOnes` | app.py:126-250 | with a descriptor assigned, the vector holds 1 in exactly the columns of the record's six values and 0 everywhere else |
| `Features.EncodeRecordColumns` | app.py:126-250 | the vector spans exactly the reference columns, none twice; its complaint-type columns hold 1 exactly at the record's complaint type, and its descriptor columns exactly at the record's descriptor when one was assigned |
| `App2.SubmitMissing` | app2.py:22-91 | a request missing any parameter fails, naming the first missing one in reading order |
| `App2.SubmitPage` | app2.py:23-97 | with every parameter present, the page renders exactly when a descriptor was assigned. It shows borough, location type and channel as given, the normalised complaint type, and `none` or the last non-empty descriptor field. Otherwise rendering fails on the unassigned descriptor |
| `App2.SubmitCluster` | app2.py:109-119 | the page shows cluster ids 0 to 4 by their table names and any other id unchanged |
| `App2.HomelessEncampmentShowsNone` | app2.py:84-97 | a raw `HomelessEncampment` request renders `Homeless Encampment` with descriptor `none`, whatever the descriptor fields hold |
| `App2.StreetNoiseRequest` | app2.py:23-97 | a Queens `Noise-StreetSidewalk` request filed online with only `nss_descriptor` filled in builds the record with `Noise - Street/Sidewalk` and that descriptor, and renders |
| `App.SubmitAgreesWithApp2` | app.py:19-259 | the full handler fails exactly when the `app2.py` handler does, with the same error, and otherwise shows the same values |
| `App.SubmitShowsRecord` | app.py:253-259 | with every parameter present, the page renders exactly when the record got a descriptor; it shows the record's values with the relabelled cluster, and the prediction is the classifier's output on that record's vector |
| `App.SubmitPrediction` | app.py:121-259 | the vector the classifier sees spans exactly the 108 reference columns, each once. Its complaint-type and descriptor columns hold 1 exactly at the record's values, which are the values the page shows |
| `App.StreetNoiseRequest` | app.py:23-250 | a Queens `Noise-StreetSidewalk` request filed online with only `nss_descriptor` = `Loud Music/Party` renders that descriptor and the renamed type. Its vector holds 1 in exactly the borough, location type, complaint type, channel, descriptor and cluster columns |
| `Draft.DraftParamsPresent` | test.py:25-31 | the draft's parameters are present exactly when its four keys are |
| `Draft.SubmitErrors` | test.py:25-31 | the draft fails exactly when one of `borough`, `location_type`, `complaint_type`, `descriptor` is missing, naming the first in reading order |
| `Draft.SubmitPage` | test.py:25-65 | the draft always renders with its four parameters present. Borough, location type and descriptor are shown as given, the complaint type normalised. The record it clusters has channel `ONLINE` whatever the request says |
| `Draft.SubmitCluster` | test.py:77-98 | the draft shows cluster ids 0 to 4 by their table names and any other id unchanged |
| `Draft.HomelessEncampmentKeepsDescriptor` | test.py:29-65 | a raw `HomelessEncampment` request keeps its descriptor although `Homeless Encampment` is descriptor-less: the draft has no `none` override |

## Left out

- Flask routing, the form route `/` and `app.run` (app.py:9-16, 262-263) are HTTP plumbing. `render_template` is modelled only as reading the values the page shows (`Complaint.Confirm`). Reading an unassigned `descriptor` is the one way rendering can fail.
- `request.args` is a multi-dictionary. The model reads it as a `map<string, string>`, one value per name. A missing name is the `MissingParameter` error, where Flask raises `KeyError` (a 400 response). It is not a precondition.
- `pickle.load` and the k-modes and AdaBoost `predict` calls (app.py:103-105, 253-256; app2.py:103-105; test.py:71-73) are file I/O and opaque pre-trained models. They are the parameters `predictCluster: Record -> int` and `classify: Row -> P`. What k-modes does with a frame that lacks a `descriptor` column is therefore not modelled.
- `round(pred, 2)` (app.py:259) is floating point. The page's prediction is `classify`'s result itself.
- The pandas `DataFrame`/`append` mechanics (app.py:99-100, 122-123) are a library. A one-row frame is a sequence of (column, value) pairs. `get_dummies` is modelled only for this single-row case, where every generated column holds 1.
- The column text of an integer cluster id is written in decimal (`Cluster.CellText`). This is the column text `get_dummies` would produce. No such column is a reference column, which is all the proofs rely on.
- The commented-out classifier lines of `app2.py` (app2.py:125-129) and `test.py` (test.py:94-95) are not code.
- The `!pip install kmodes` line (test.py:1) is a notebook shell escape, not program logic.
