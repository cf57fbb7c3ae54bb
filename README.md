# Feature Store CRUD — a Dafny model

This project models the core of the Feature Store CRUD service. The service is a FastAPI
application that stores per-entity feature records in DynamoDB tables. A record is keyed by a
table-specific identifier (`bright_uid` or `account_id`) and a `category`. It holds a
`features` object made of the feature `data` and a `metadata` record with `created_at` and
`updated_at`.

The model covers the following, module by module:

- **`FeatureServices`, `FeatureModels`, `FeatureSchemas`:** the request validators and the
  conversion of request feature lists. This includes the `"category:feature"` /
  `"category:*"` selector grammar with its wildcard rule, and the per-category write items.
- **`DynamoCodec`:** the conversion between plain dicts and DynamoDB's typed attribute values
  (`S`, `N`, `BOOL`, `M`, `L`). It keeps the quirk that booleans are stored as numbers.
- **`Dynamo`, `FeatureCrud`, `AppCrud`:** the store. `Dynamo.Database` is a class that holds the
  tables and is updated in place. On top of it sit the two generations of store functions,
  among them the metadata-preserving upsert.
- **`FeatureFlows`, `FeatureController`, `AppRoutes`, `AppUtils`:** the business flows and the
  older route handlers. This covers single and batch reads with per-category projection and
  the per-category write loops, with their counts and what they leave in the store.
- **`StoreExceptions`, `ExceptionHandlers`, `ApiRoutes`:** the exception classes and their
  standard error body. Also the handlers that turn every escaping exception into a status and
  a body, and the versioned routes' mapping from `ValueError` to a status.
- **`MetricsMiddleware`:** the helpers of the HTTP metrics middleware and the list of metrics
  `_track_metrics` sends.
- **`StatsD`:** the development StatsD server's line parser and its aggregation tables, as a
  class updated in place.

Python values are the datatype `PyValue.Value`. A Python dict whose iteration order matters
is a list of `(key, value)` pairs, and `PyValue.Put` is `d[k] = v`. Three things are
parameters: the current time (`now`), Python's `str()` of non-string values, and boto3's
`TypeDeserializer` (`DynamoCodec.Codec`). The StatsD server's `float()` is a partial function
(`StatsD.FloatParser`).

Where the code and its own comments disagree, the model follows the code:

- The schemas' `validate_source`, `validate_category` and `validate_features`
  (components/features/schemas.py:24-56) repeat the validators of components/features/models.py
  word for word, so the `FeatureModels` functions stand for both.
- `update_item_features` replaces `features` rather than merging.
- The write schema names its fields `identifier`/`identifier_value`, while the controller
  reads `entity_type`/`entity_value`. `ApiRoutes.SchemaValidWriteIsServerError` states the
  consequence.

The batch read route (api/v1/routes.py:31-37) answers 404 only to a `ValueError` whose lower-cased
message contains "not found". The batch flow's own message for an identifier with no records is
"No items found for identifier '…' with provided mapping" (components/features/flows.py:108).
Lower-cased, that reads "no items found", not "not found". The route therefore answers it with
400. Yet test/test_routes.py:133-149 expects a missing entity on this route to be a 404, with the
controller mocked to raise "Entity not found". The model keeps the 400
(`ApiRoutes.BatchNoItemsStatus`).

## Model

| member | source | states |
|---|---|---|
| FeatureServices.ValidateTableType | components/features/services.py:15-30 | accepts exactly `bright_uid` and `account_id`; anything else is a `ValueError` |
| FeatureServices.ValidateMapping | components/features/services.py:33-63 | passes exactly for a non-empty mapping whose every value is a list of strings; empty mapping gets its own message |
| FeatureServices.ValidateItems | components/features/services.py:66-102 | passes exactly for a non-empty map whose every value is a dict; unusual feature values never fail |
| FeatureServices.Sanitize | components/features/services.py:115-132 | falsy input and non-strings are rejected with their messages; otherwise the result is the stripped text cut to the limit |
| FeatureServices.SanitizeEntityValue | components/features/services.py:105-132 | result is a prefix of the stripped value, at most 255 characters, and the whole stripped value when it fits |
| FeatureServices.SanitizeCategory | components/features/services.py:135-162 | result is a prefix of the stripped name, at most 100 characters, and the whole stripped name when it fits |
| FeatureServices.ValidateRequestStructure | components/features/services.py:165-212 | checks empty, `metadata`, `data`, dict types and the three fields in that order; on success returns `(metadata, data)` unchanged |
| FeatureServices.ParseSelector | components/features/services.py:236-244 | succeeds exactly for a string with a `:`; the category holds no `:` and category + ":" + name is the selector |
| FeatureServices.SelectorSplitsAtFirstColon | components/features/services.py:244 | `"c:a:b"`-style selectors give category `c` and feature `a:b` |
| FeatureServices.ConvertFeatureListToMapping | components/features/services.py:215-262 | empty / non-list input raise; the first bad selector's error is raised; otherwise the mapping has one key per category in first-appearance order holding what the selectors want |
| FeatureServices.WildcardAbsorbs | components/features/services.py:247-259 | a category named by a wildcard holds exactly `["*"]`; any other holds its plain names in input order, duplicates kept |
| FeatureServices.ParseItem | components/features/services.py:284-306 | succeeds exactly for a dict with a string `category` and a dict `features`, and returns those two |
| FeatureServices.ConvertFeatureListToItems | components/features/services.py:265-311 | empty / non-list input raise; the first bad item's error is raised; otherwise one entry per category in first-appearance order, the last item's features winning |
| FeatureServices.ConvertedItemsValidate | components/features/services.py:265-311 | items produced by a successful conversion always pass `validate_items` |
| FeatureModels.ValidateWriteSource | components/features/models.py:53-57 | the source is accepted exactly when it is `prediction_service`, and returned unchanged |
| FeatureModels.ValidateItemCategory | components/features/models.py:63-69 | accepted exactly when non-empty and at most 100 characters before stripping; returns the stripped name |
| FeatureModels.PaddingCountsTowardsLimit | components/features/models.py:66-67 | a short name padded with spaces past 100 characters is rejected, since the limit is measured before stripping |
| FeatureModels.ValidateItemFeatures | components/features/models.py:71-77 | accepted exactly when the feature map is non-empty, returned unchanged |
| FeatureModels.ValidateWriteData | components/features/models.py:83-105 | accepted exactly when the four fields are present, the entity type known, the value and category non-empty strings and features a non-empty dict; reports the first missing field; data returned unchanged |
| FeatureModels.ReadSelectorAccepted | components/features/models.py:130-137 | a selector passes exactly when it contains `:` and does not end in `:` (so `c:*` passes, `c:` fails) |
| FeatureModels.ValidateReadData | components/features/models.py:111-139 | accepted exactly when the fields are present, the entity type known, the value a non-empty string and every selector accepted; reports the first missing field; data returned unchanged |
| FeatureSchemas.CheckCommon | components/features/schemas.py:65-83 | passes exactly when data is non-empty, has the three fields, a known identifier, a non-empty identifier value and a non-empty feature list; reports the first missing field |
| FeatureSchemas.ValidateWriteData | components/features/schemas.py:63-85 | accepted exactly when the common checks pass; data returned unchanged |
| FeatureSchemas.ValidateReadData | components/features/schemas.py:115-144 | accepted exactly when the common checks pass and every selector is a string containing `:`; data returned unchanged |
| FeatureSchemas.SchemaSelectorsAreLooser | components/features/schemas.py:138-142 | every selector the model-level check accepts is accepted here; the two differ exactly on selectors ending in `:` |
| DynamoCodec.EncodeListItem | components/features/crud.py:54 | a list element becomes a one-entry `S` or `N` dict, `N` exactly for ints, floats and bools |
| DynamoCodec.EncodeValue | components/features/crud.py:45-56 | every value becomes one tagged entry (`M`, `S`, `N` or `L`); `M` exactly for dicts, `N` exactly for ints, floats and bools |
| DynamoCodec.DictToDynamo | components/features/crud.py:35-57 | keeps the key set and tags every value; non-dicts come back unchanged |
| DynamoCodec.DecodeEntry | components/features/crud.py:20-31 | a Decimal becomes a float; an untyped dict is decoded with its keys kept; a value that is neither typed, Decimal nor dict is left as it is |
| DynamoCodec.DynamoToDict | components/features/crud.py:11-32 | keeps the key set; non-dicts come back unchanged |
| DynamoCodec.DeserializeEncoded | components/features/crud.py:35-57 | with boto3's rules for `S` and `M`, an encoded string tree deserializes back to itself |
| DynamoCodec.BotoLikeDecodesStringTrees | components/features/crud.py:11-57 | boto3's `S` and `M` rules are enough to decode every encoded string tree |
| DynamoCodec.RoundTrip | components/features/crud.py:11-57 | decoding the encoding of a dict of strings and nested dicts gives the dict back |
| DynamoCodec.BoolsAreNumbers | components/features/crud.py:49-54 | a bool is tagged `N`, at the top level and inside lists; the `BOOL` branch is never taken |
| DynamoCodec.NestedInListIsString | components/features/crud.py:54 | a dict or list inside a list becomes `{"S": str(item)}` |
| Dynamo.Database.constructor | components/features/crud.py:69-70 | a store starts with the given tables and no lookups |
| Dynamo.Database.GetItem | components/features/crud.py:69-70 | returns the stored item (empty when absent), records the lookup, changes no table |
| Dynamo.Database.PutItem | components/features/crud.py:105 | writes the item under the key its own attributes name, replacing any old item; an item without its key attributes is rejected and nothing changes |
| Dynamo.Database.UpdateFeatures | app/crud.py:71-76 | sets the whole `features` attribute of the item under the key, creating it with its key attributes when absent, and returns all attributes |
| FeatureCrud.GetItem | components/features/crud.py:61-92 | an unknown table raises before any lookup; otherwise exactly one lookup under `{table_type: id, category}`, no writes |
| FeatureCrud.Lookup | components/features/crud.py:69-83 | nothing exactly when no (or an empty) item is stored; otherwise an item with the stored attribute names |
| FeatureCrud.LookupSpec | components/features/crud.py:69-83 | `None` exactly when nothing (or an empty item) is stored; otherwise every attribute as stored except `features`, which comes back decoded |
| FeatureCrud.Encoded | components/features/crud.py:102-103 | the written item has the caller's keys and values, except `features`, which is encoded |
| FeatureCrud.PutItem | components/features/crud.py:96-126 | unknown table raises with the caller's dict untouched; otherwise `features` is encoded and the item replaces the one under its key |
| FeatureCrud.UpsertItemWithMetadata | components/features/crud.py:130-189 | one lookup then one write; the tables afterwards and the returned item are those of the upsert, or nothing changes on an error |
| FeatureCrud.CreatedAtFor | components/features/crud.py:139-149 | a key with no stored record (or one without `features`) gets `now`; the only failure is the `AttributeError` of `.get` on a non-dict |
| FeatureCrud.Upserted | components/features/crud.py:130-189 | an unknown table is a `KeyError`; the only other failures are the `.get` error and a rejected key; a success keeps every other table and puts the record under its own key in this one |
| FeatureCrud.RecordKey | components/features/crud.py:136 | the written record is keyed `{table_type: identifier, "category": category}` |
| FeatureCrud.UpsertOnlyThisKey | components/features/crud.py:139-166 | an upsert fails only when reading the old `created_at` fails; otherwise it changes exactly one item, under the request's key, to a record holding exactly the new data |
| FeatureCrud.FirstUpsertStampsNow | components/features/crud.py:145-153 | a first write stamps `created_at == updated_at == now` |
| FeatureCrud.StoredCreatedAt | components/features/crud.py:139-149 | reading back the `created_at` of a record the upsert wrote gives the value written |
| FeatureCrud.CreatedAtFromMetadata | components/features/crud.py:145-147 | a stored record whose decoded `features` carry a metadata dict yields that dict's `created_at`, or the current time when it has none |
| FeatureCrud.UpsertTwice | components/features/crud.py:139-166 | after two upserts of a new key, the record holds the second data, the first call's `created_at` and the second call's `updated_at` |
| FeatureFlows.FilterFeatures | components/features/flows.py:189-211 | an empty key set or an item without `features` comes back unchanged |
| FeatureFlows.FilterFeaturesSpec | components/features/flows.py:200-208 | `features.data` restricted to the requested names, everything else in the item and in `features` unchanged; fails exactly when `data` is not a dict |
| FeatureFlows.GetSingleCategoryFlow | components/features/flows.py:17-52 | the stored item, or "Item not found: id/category" when none is stored; no writes |
| FeatureFlows.GetMultipleCategoriesFlow | components/features/flows.py:55-122 | empty mapping raises before any lookup; one lookup per category in order; nothing found raises; otherwise the gathered items and missing categories |
| FeatureFlows.GatherItems | components/features/flows.py:84-100 | the loop's result is the gathering function of the mapping, with one lookup per category in mapping order |
| FeatureFlows.Gathered | components/features/flows.py:84-100 | the loop's only failure is the `AttributeError` of a projection; it never reports more missing categories than it was asked for |
| FeatureFlows.BatchReadSpec | components/features/flows.py:84-108 | when every found item can be projected, the answer lists exactly the found categories in mapping order with their projected records, and exactly the missing ones in mapping order |
| FeatureFlows.GatheredFailsIff | components/features/flows.py:94-98 | the batch read fails exactly when a found item cannot be projected, and then with an `AttributeError` |
| FeatureFlows.GatheredLists | components/features/flows.py:84-100 | the found categories and the missing ones are the mapping's categories split by presence, each in mapping order |
| FeatureFlows.GatheredItems | components/features/flows.py:94-98 | every gathered item is its category's record projected as requested |
| FeatureFlows.GatheredFails | components/features/flows.py:84-100 | once the loop fails on a prefix, the whole read fails the same way |
| FeatureFlows.FoundMissingPartition | components/features/flows.py:84-100 | every requested category is found or missing, never both, and the two lists together are as long as the request |
| FeatureFlows.Projected | components/features/flows.py:94-98 | an empty list or one containing `*` keeps the whole item; the only failure is the `AttributeError` raised on a `data` that is not a dict |
| FeatureFlows.ProjectedSpec | components/features/flows.py:94-98 | with a non-empty list of names (and no honoured `*`) the projection fails exactly when `features.data` exists and is not a dict; otherwise every attribute but `features` is kept and `features.data` holds only requested names |
| FeatureFlows.UpsertFeaturesFlow | components/features/flows.py:125-186 | empty items raise before any write; otherwise the store and the answer are those of the write loop, earlier writes staying in place when it stops |
| FeatureFlows.WriteRun | components/features/flows.py:150-171 | the loop never adds or drops a table; it stops only on `len()`'s `TypeError`, a `ValueError` or an upsert failure |
| FeatureFlows.WriteRunStops | components/features/flows.py:154-163 | once the loop stops on an error, later categories change nothing |
| FeatureFlows.Counts | components/features/flows.py:165-169 | one count per category, keyed as the request |
| FeatureFlows.WriteRunCounts | components/features/flows.py:165-186 | a completed write found a dict under every category and reports each category's feature count in request order, with their sum as the total |
| FeatureFlows.WriteRunFrame | components/features/flows.py:154-171 | a write changes only the records of the request's categories under its identifier in its table |
| FeatureFlows.WriteRunStoresEach | components/features/flows.py:154-171 | a completed write leaves a record under every category of the request |
| FeatureController.Subscript | components/features/controller.py:85-88 | `v[key]` succeeds exactly on a dict holding the key; a missing key is a `KeyError` |
| FeatureController.RequestFields | components/features/controller.py:85-88 | succeeds exactly when `data` and its three fields are there; a request without `data` is a `KeyError` |
| FeatureController.ItemsFrom | components/features/controller.py:91-92 | empty and non-list feature lists raise their messages; on success every item parsed and each category holds the features of the last item naming it |
| FeatureController.UpsertFeatures | components/features/controller.py:72-97 | the store changes only through the write flow, which runs only after the fields were read and the list converted and validated; its outcome is returned unchanged |
| FeatureController.ValidationAfterConversionPasses | components/features/controller.py:91-94 | after a successful conversion the validation step never rejects |
| FeatureController.SchemaValidRequestLacksEntityType | components/features/controller.py:85-88 | a request the write schema accepts but without `entity_type` fails with `KeyError('entity_type')` |
| AppUtils.FilterFeatures | app/utils.py:31-42 | an empty key set returns the item itself |
| AppUtils.FilterFeaturesSpec | app/utils.py:38-42 | other attributes copied; `features` restricted to the requested names, `{}` when missing or falsy, a truthy non-dict left alone |
| AppUtils.FilterFeaturesIdempotent | app/utils.py:31-42 | filtering twice by the same names equals filtering once |
| AppCrud.GetItem | app/crud.py:6-29 | an unknown table type raises `ValueError` before any lookup; otherwise one lookup and the found item with `features` decoded, or nothing |
| AppCrud.PutItem | app/crud.py:33-54 | unknown table type raises before any write; otherwise `features` is encoded in the caller's dict and the item stored under its key |
| AppCrud.UpdateItemFeatures | app/crud.py:58-90 | unknown table type raises; otherwise the item under the key gets the encoded features and the updated item returns decoded |
| AppCrud.UpdateReplacesFeatures | app/crud.py:71-76 | the update replaces `features` wholesale and keeps every other attribute; a new item gets just its key attributes |
| AppCrud.UpdateReturnsFeaturesSent | app/crud.py:65-81 | the returned item's `features` are exactly the features sent, for strings and nested dicts |
| AppCrud.EncodedFeaturesDecode | app/utils.py:7-67 | features made of strings and maps decode back from their encoding unchanged |
| AppRoutes.CreateFeaturesWithMetadata | app/routes.py:11-23 | the record carries the data and metadata with `created_at == updated_at == now` and the call's source, compute id and ttl |
| AppRoutes.UpdateFeaturesWithMetadata | app/routes.py:25-39 | keeps the existing `created_at` (now when absent), sets `updated_at` to now, takes source/compute id/ttl from the call; non-dict metadata has no `.get` |
| AppRoutes.UpdateWithoutCreatedAtIsCreate | app/routes.py:11-39 | an update of metadata without `created_at` is exactly a creation |
| AppRoutes.GetCategoryFeatures | app/routes.py:56-65 | unknown table type is 400 before any lookup; otherwise the stored item or 404 |
| AppRoutes.GetItemsByFeatureMapping | app/routes.py:72-97 | unknown table type 400, empty mapping 400, both before any lookup; one lookup per category; nothing found 404; otherwise the found items and missing categories |
| AppRoutes.GatherMappedItems | app/routes.py:83-90 | the loop's result is the gathering function with the literal filtering rule, with one lookup per category in order |
| AppRoutes.StarIsLiteral | app/routes.py:88-89 | here `["*"]` filters for a feature literally named `*`, while the components flow keeps the whole item |
| AppRoutes.ExistingMetadata | app/routes.py:121-124 | no item or no `features` means a new record; a dict `features` gives its `metadata` when present |
| AppRoutes.UpsertItems | app/routes.py:105-146 | unknown table type and empty body are 400 before any write; otherwise the store and the answer are those of the write loop |
| AppRoutes.RecordToWrite | app/routes.py:120-142 | an unknown table type is the `ValueError` of `put_item`; a written record sits under its own key, which is `{table_type: identifier, category}` |
| AppRoutes.AppWriteStep | app/routes.py:120-143 | one category written never adds or drops a table |
| AppRoutes.AppWriteRun | app/routes.py:113-143 | the loop never adds or drops a table |
| AppRoutes.ItemForKey | app/routes.py:142 | the record the route writes sits under `{table_type: identifier, "category": category}` |
| AppRoutes.AppWriteRunStops | app/routes.py:116-118 | once the loop stops on a non-dict category, later categories change nothing and earlier writes stay |
| AppRoutes.AppWriteRunCounts | app/routes.py:141-146 | a completed write reports each category's feature count in request order and their sum as `total_features` |
| AppRoutes.AppWriteRunFrame | app/routes.py:116-143 | a write changes only the records of the request's categories under its identifier in its table |
| AppRoutes.CreatedAtKept | app/routes.py:121-139 | a category whose record has metadata keeps its `created_at` and gets `updated_at == now`; a new one gets both stamped now |
| AppRoutes.StoredMetadataReadsBack | app/crud.py:39-43 | the stored features read back with the metadata the route built: timestamps and source unchanged, the `None` compute id and ttl as their `str()` text |
| AppRoutes.StoredCreatedAtKept | app/routes.py:121-142 | over a record whose metadata has a string `created_at`, the stored record reads back with that `created_at` and `updated_at == now` |
| StoreExceptions.Raise | core/exceptions.py:16-136 | every exception has a 4xx/5xx status, 5xx exactly for the server faults, and a non-empty error code |
| StoreExceptions.ErrorCodeDeterminesStatus | core/exceptions.py:16-136 | two exceptions with the same error code have the same status and the same fault side |
| StoreExceptions.EmptyBodyMessage | core/exceptions.py:51-60 | the default `EmptyRequestException` is 400 `EMPTY_REQUEST` "Request body cannot be empty" |
| StoreExceptions.CreateErrorResponse | core/exceptions.py:141-166 | always status, detail and timestamp (the given one, else now); `error_code` and `field` present exactly when given non-empty |
| StoreExceptions.ErrorResponseRoundTrip | core/exceptions.py:141-166 | reading an error body back gives the exception it was built from, whatever the field and timestamp |
| ExceptionHandlers.ErrorBody | core/exception_handlers.py:45-52 | the handlers' body reads back as the status, detail and (non-empty) code it was built from |
| ExceptionHandlers.FeatureStoreHandler | core/exception_handlers.py:36-52 | the response status is the exception's, and the body reads back as the exception |
| ExceptionHandlers.HttpHandler | core/exception_handlers.py:54-68 | the exception's own status and detail, no error code |
| ExceptionHandlers.RenderErrors | core/exception_handlers.py:72-84 | each validation error becomes `loc joined by "." + ": " + msg`, one per error |
| ExceptionHandlers.ValidationHandler | core/exception_handlers.py:70-92 | 422 `VALIDATION_ERROR` with "Validation error: " and the rendered errors joined by "; " |
| ExceptionHandlers.DynamoHandler | core/exception_handlers.py:94-130 | a status from 400 to 500, matching the body, always with `DYNAMODB_ERROR` |
| ExceptionHandlers.DynamoErrorsClassified | core/exception_handlers.py:96-114 | the four named codes are exactly the ones below 500; anything else, `Unknown` included, is 500 |
| ExceptionHandlers.GlobalHandler | core/exception_handlers.py:180-204 | 500 `INTERNAL_SERVER_ERROR`; outside development the detail is just "Internal server error" |
| ExceptionHandlers.Handle | core/exception_handlers.py:206-241 | every answer's body reads back with its own status; Feature Store exceptions exactly as raised; AWS errors 500 or 503; validation 422 |
| ExceptionHandlers.Escaped | core/exception_handlers.py:206-241 | exceptions of the core never reach the Feature Store or validation handlers; Python errors go to the global handler, store failures to the `ClientError` one with their code, HTTP exceptions to the HTTP one |
| ExceptionHandlers.UnhandledDetailsHidden | core/exception_handlers.py:180-204 | outside development every unhandled exception gets the same answer |
| ExceptionHandlers.AwsDetailsHidden | core/exception_handlers.py:132-178 | the AWS handlers never show the exception's text |
| ExceptionHandlers.ValidationDetail | core/exception_handlers.py:72-92 | a single error reads "Validation error: loc: msg"; none leaves just the prefix |
| ApiRoutes.Reraised | api/v1/routes.py:19-49 | a `ValueError` becomes an HTTP exception carrying its message; anything else escapes unchanged |
| ApiRoutes.Answer | api/v1/routes.py:19-49 | the controller's value when it returns; otherwise an error body that reads back with the response status |
| ApiRoutes.ValueErrorStatus | api/v1/routes.py:19-49 | a `ValueError` is 404 on the single read, 400 on the write, and on the batch read 404 exactly when its lower-cased message contains "not found", else 400 |
| ApiRoutes.OtherErrorsFallThrough | api/v1/routes.py:19-49 | other exceptions get the same answer on every route: 500 for Python errors, the DynamoDB status for store errors |
| ApiRoutes.FlowItemNotFoundIs404 | api/v1/routes.py:19-22 | the single-category flow's "Item not found: id/category" is answered 404, with that message as the detail |
| ApiRoutes.NoItemsSaysNotFound | components/features/flows.py:108 | the batch flow's "No items found for identifier '…' with provided mapping" contains "not found" once lower-cased exactly when the lower-cased identifier does |
| ApiRoutes.BatchNoItemsStatus | api/v1/routes.py:31-37 | the batch route answers the flow's own "No items found" with 400, and with 404 only when the lower-cased identifier contains "not found" |
| ApiRoutes.SchemaValidWriteIsServerError | api/v1/routes.py:44-49 | a write the schema accepts but without `entity_type` is answered with 500 |
| ApiRoutes.HealthCheckEndpoint | api/v1/routes.py:54-72 | healthy exactly when the health check says so and the tables are listed; any exception gives unhealthy with no tables; never fails |
| MetricsMiddleware.StatusCategory | middlewares/metrics_middleware.py:166-177 | `unknown` exactly outside 200..599; otherwise the status's hundreds digit followed by `xx` |
| MetricsMiddleware.ErrorType | middlewares/metrics_middleware.py:179-200 | `unknown_error` exactly for statuses outside the nine named ones |
| MetricsMiddleware.ErrorTypeNamesDistinct | middlewares/metrics_middleware.py:179-200 | two statuses with the same named error type are the same status |
| MetricsMiddleware.HandledStatusesClassified | middlewares/metrics_middleware.py:166-200 | every Feature Store exception's status has a named error type and the status class of its fault side; 409 has no name |
| MetricsMiddleware.DropVersionPrefix | middlewares/metrics_middleware.py:205-207 | the result is a suffix of the path, and the path itself when it is not under `/api/v` |
| MetricsMiddleware.SegmentName | middlewares/metrics_middleware.py:209-215 | the name holds no `/`; a path without `/` names itself |
| MetricsMiddleware.EndpointName | middlewares/metrics_middleware.py:202-215 | the endpoint name holds no `/`; a path without `/` names itself |
| MetricsMiddleware.EndpointOfVersionedPath | middlewares/metrics_middleware.py:202-215 | a versioned path is named after what follows its version segment |
| MetricsMiddleware.RootHasNoEndpoint | middlewares/metrics_middleware.py:209-215 | the root path gets the empty name, never `root` |
| MetricsMiddleware.ApiVersion | middlewares/metrics_middleware.py:217-224 | a version exactly for paths under `/api/v`; it is non-empty, starts with `v` and holds no `/` |
| MetricsMiddleware.ApiVersionOf | middlewares/metrics_middleware.py:217-224 | the version of `/api/vN/...` is `vN` |
| MetricsMiddleware.Emitted | middlewares/metrics_middleware.py:68-148 | between two and eight metrics, the request count and duration first with the base tags, each named by one of the middleware's nine metric names |
| MetricsMiddleware.TrackMetrics | middlewares/metrics_middleware.py:50-148 | the request count comes first; every metric carries the base tags; the error counter's message is non-empty and at most 100 characters |
| MetricsMiddleware.EmittedCounts | middlewares/metrics_middleware.py:68-148 | each metric is sent at most once, and exactly under its condition |
| MetricsMiddleware.TrackMetricsCounts | middlewares/metrics_middleware.py:91-148 | exactly one of the error and success counters, error from 400; slow counter exactly above one second; endpoint and version metrics exactly when the path has them |
| MetricsMiddleware.EmittedTags | middlewares/metrics_middleware.py:56-148 | every metric sent carries the base tags unchanged |
| MetricsMiddleware.ErrorCounterTags | middlewares/metrics_middleware.py:91-101 | from 400 the error counter carries the status's error type and the error message |
| MetricsMiddleware.ErrorMessageTag | middlewares/metrics_middleware.py:91-101 | the error counter's `error_message` tag is the message given |
| StatsD.ParseLine | statsd_server.py:28-70 | a well-formed line parses to its name, value, type, rate and tags; it fails exactly when the value or a rate does not parse |
| StatsD.Parse | statsd_server.py:28-70 | fewer than two `\|`-fields give no metric; a parsed name holds neither `:` nor `\|`, and its type no `\|` |
| StatsD.ParsedLineShape | statsd_server.py:28-70 | every line that parses is a well-formed line of the metric's parts |
| StatsD.ParseRejects | statsd_server.py:32-34 | a line without `\|` or whose first field has no `:` gives no metric |
| StatsD.RateDefault | statsd_server.py:40 | without `@` fields the rate is 1.0 |
| StatsD.RateFailure | statsd_server.py:44-45 | a non-numeric `@` field fails the line, wherever it is |
| StatsD.RateLastWins | statsd_server.py:43-45 | when the line parses, the last `@` field gives the rate |
| StatsD.AddTagsKeys | statsd_server.py:46-51 | a tag is set exactly by a piece with a `:` beginning with its key |
| StatsD.AddTagsLastWins | statsd_server.py:48-51 | a key set several times keeps the last value |
| StatsD.Scaled | statsd_server.py:83-84 | a rate below 1 divides the value; a rate of 0 raises `ZeroDivisionError`; otherwise the value is kept |
| StatsD.Store | statsd_server.py:72-112 | fails exactly at a sample rate of 0, with `ZeroDivisionError`; no metric leaves the tables as they were |
| StatsD.StoreChangesOneEntry | statsd_server.py:72-112 | fails exactly at rate 0; otherwise only the metric's entry of its type changes (counter adds, gauge replaces, timer appends), tags never matter |
| StatsD.SampledCounter | statsd_server.py:83-95 | a counter sampled at rate r grows by value / r |
| StatsD.CountersAggregate | statsd_server.py:92-95 | over a stream a counter holds its old total plus the scaled values |
| StatsD.TimersAggregate | statsd_server.py:102-112 | over a stream a timer holds its old values followed by the scaled timer and histogram values |
| StatsD.GaugeLastWins | statsd_server.py:98-99 | over a stream a gauge holds the last value set |
| StatsD.GaugeUntouched | statsd_server.py:98-99 | a stream that never sets a gauge leaves it as it was |
| StatsD.StatsDServer.constructor | statsd_server.py:22-26 | a server starts with empty counter, gauge and timer tables |
| StatsD.StatsDServer.ParseMetric | statsd_server.py:28-70 | the loop over the fields computes what the parsing function describes |
| StatsD.StatsDServer.ProcessMetric | statsd_server.py:72-112 | the tables become the stored tables, or stay as they were when the rate is 0 |
| Text.Strip | components/features/services.py:124 | Python's `strip()`: a slice of the input with no whitespace at either end |
| Text.Split | statsd_server.py:32 | Python's `split(c)`: at least one piece, none holding `c` |
| Text.JoinSplit | statsd_server.py:32 | joining the pieces of a split with the separator gives the text back |
| PyValue.FromPairsSpec | components/features/services.py:308 | assigning pairs into a dict gives the distinct keys in first-occurrence order and the last value for each |
| Wrappers.ParseEachIsFirst | components/features/services.py:235-242 | a conversion loop reports the error of its first bad element |

## Left out

- Framework plumbing is not modelled. This covers FastAPI routing, the async request and response
  objects, CORS, logging and the `time_function` decorator. The log and metric calls inside the
  core functions have no effect on their results and are dropped.
- The DynamoDB and boto3 clients are abstracted. components/features/crud.py imports `get_table`
  from core/config.py, which defines only the `TABLES` map. The model therefore assumes
  `get_table(t)` is `TABLES[t]`, so an unknown table type is a `KeyError(t)` in `FeatureCrud`
  (`FeatureCrud.NoTable`). In `AppCrud` it is the `ValueError` that app/crud.py raises itself. The typed branch of `dynamodb_to_dict` is the `Codec.deserialize` parameter. Python's
  `str()` of numbers, `None`, lists and dicts is the `Codec.render` parameter. Decimal-to-float
  conversion is symbolic.
- Clocks are parameters. The current time is an input `now`, one per request, and is not parsed.
  The `FeatureMeta.parse_timestamp` validator and core/timestamp_utils.py are not part of this model.
- components/features/crud.py imports `FeatureMetadata` and builds `Features(metadata=...)`, but
  components/features/models.py defines neither. The record is modelled directly as
  `{created_at, updated_at, compute_id}`, with `compute_id` the string `"None"`.
- FeatureFlows.FilterFeatures: the source writes the filtered `data` into the nested `features` dict
  it shares with the caller, so the caller's item changes too. The model returns a new value and
  does not capture that aliasing. The same applies to `filter_features_new_schema`, which
  AppRoutes.GatherMappedItems uses through the same definition.
- FeatureCrud.PutItem and AppCrud.PutItem return the encoded dict instead of mutating the caller's
  dict, which is the model's stand-in for the in-place overwrite of `item_data["features"]`.
- FeatureCrud.GetItem, FeatureCrud.PutItem, FeatureCrud.UpsertItemWithMetadata: the store is
  assumed never to fail, except that `put_item` rejects an item without its key attributes with
  `StoreError("ValidationException")`. These functions re-raise whatever `get_item` or
  `put_item` throws unchanged (components/features/crud.py:85-92, 118-126 and 182-189). Those
  errors are botocore `ClientError`s such as throttling, a missing table or a failed condition,
  and connection errors. The model does not produce them, so the same holds for AppCrud.GetItem,
  AppCrud.PutItem and AppCrud.UpdateItemFeatures. Every caller's success and "only failures"
  claims are therefore conditional on a store that answers:
  FeatureFlows.GetSingleCategoryFlow, FeatureFlows.GatherItems, FeatureCrud.Upserted,
  FeatureFlows.WriteRun and the AppRoutes loops. What happens to such an error once it escapes
  is modelled on the handlers' side: `ExceptionHandlers.DynamoHandler`,
  `ExceptionHandlers.Escaped` and `ApiRoutes.OtherErrorsFallThrough`.
- Dynamo.Database.GetItem records lookups in a ghost log. The read-then-write upsert is sequential,
  and nothing is claimed about concurrent requests.
- FeatureController.UpsertFeatures: the flow is given the string entity type and value.
  A non-string value would fail inside the flow with some Python error. The model reports it as
  `TypeError("str")` before the flow runs.
- The controller's `get_single_category` and `get_multiple_categories` are not part of this model.
  They call a service function that does not exist and unpack a value that `validate_mapping`
  never returns. The read routes of `ApiRoutes` therefore take the controller's outcome as an input.
- ExceptionHandlers.Escaped gives a store failure the code of the DynamoDB error but not its
  message. The handler falls back to the exception's text, which is the code.
- ExceptionHandlers.RenderErrors takes each validation error's `loc` parts already converted by
  `str()`.
- Dictionary keys are strings throughout, since every request comes from JSON. The validators'
  checks for non-string keys are therefore never exercised.
- Text.Lower lower-cases ASCII letters only. Unicode case folding is not modelled.
- `_normalize_path` and the middleware's `__call__` are not part of this model. The normalized path
  is a parameter of `TrackMetrics`.
- The response-size gauge's value, the duration in the timing metrics, and metric values in
  general are not tracked. Only the names and tags of the metrics are.
- StatsD: the receive loop `start`, `print_summary` and the printed output are not modelled. In
  the loop, a `ZeroDivisionError` from `process_metric` drops the rest of the packet; the model
  stops at the error that `ProcessMetric` returns.
- StatsD: the `timestamp` field of a parsed metric is dropped. `float()` is the `FloatParser`
  parameter, and values are Dafny `real`s rather than IEEE floats.
- api/v1/schema.py, the Kafka publisher, configuration loading and app/metrics.py are not part of
  this model.
