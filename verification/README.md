# Wikibase entity API result building, in Dafny

This project models the part of the Wikibase repository's web API that
builds the response of an entity request.

- **`ResultBuilder`** is the one object through which API modules write
  into the result. It holds four pieces of state:
  - the result tree;
  - whether the result is in raw (indexed, XML-style) mode;
  - serialization options, created on first use;
  - a counter that numbers missing entities that have no key, starting at -1.

  Three path-addressed primitives write into the tree: `setValue`, `setList`
  and `appendValue`. Each checks the shape of its arguments first. On top of
  them sit helpers that write:
  - entity records, labels, descriptions and aliases;
  - sitelinks and claims;
  - missing entities and normalized titles;
  - the success flag and revision ids.
- **`wbgetentities`** (`GetEntities`) runs these steps, in order:
  1. checks that ids or site/title pairs were given;
  2. parses the ids and removes duplicates;
  3. looks up a revision for each id, following at most one redirect;
  4. writes each revision under the id that was asked for, or writes a
     missing-entity record;
  5. marks the result as a success.
- **The multilingual serializer** has two jobs:
  - project a map of terms into the result format;
  - pick one preferred value per requested language, from a plain list of
    language codes or from a chain of fallback languages.

PHP arrays are ordered association lists (`OrderedMaps`, `PhpValues`).

The result tree and `ApiResult::addValue` are a small abstract tree
(`ApiTree`). Its assumed behaviour:
- a write walks the path and creates missing or null nodes;
- a write fails on a scalar in the path;
- a null name appends at the next free index;
- any other name stores the value under that key.

`SerializationOptions` is a record of optional fields (`SerializationOptions`).
Merging it lets the fields set in the second record win.

Every builder operation returns the new builder, or the exception PHP would
throw, as a `Result`. `dieError` becomes an `Err` of `GetEntities.ApiError`.

Several collaborators are parameters of the model:
- the serializers;
- the title lookup and the `wfTimestamp` formatter;
- the id parser and the revision lookup;
- the item-by-title helper and the fallback-chain factory.

The serializer class itself is not part of this model. Its behaviour is
fixed by the rows of its unit test, which appear in `MultilingualTables` as
lemmas over arbitrary texts.

## Model

| member | source | states |
|---|---|---|
| OrderedMaps.Put | repo/includes/api/GetEntities.php:209 | `$a[k] = v`: `k` then reads `v` and every other key reads as before. An existing key keeps its position; a new key goes at the end. Distinct keys stay distinct. |
| OrderedMaps.RemoveKey | repo/includes/api/ResultBuilder.php:138 | `unset`: the key is gone, every other key reads as before, and the remaining entries are exactly the others, in their original order. An absent key leaves the array unchanged. |
| PhpValues.NextIndex | repo/includes/api/GetEntities.php:132 | The index `$a[] =` uses, computed from the keys present: above every int key and not yet a key, so it is 0 or one past an existing index. |
| PhpValues.Append | repo/includes/api/GetEntities.php:132 | `$a[] = v` keeps the old entries and adds `v` under a fresh index. Every other key reads as before. |
| PhpValues.NextIndexAfterFill | repo/includes/api/ResultBuilder.php:201-205 | Filling the next index and adding no other int key moves the next index up by exactly one, so successive appends take successive indexes. |
| PhpValues.ArrayValues | repo/includes/api/ResultBuilder.php:140 | `array_values` keeps the values in order and renumbers the keys 0..n-1. |
| PhpValues.MergeInto | repo/includes/api/ResultBuilder.php:332 | Folding the second array into the first: a string key reads the later array's value if it has one, else the earlier's. Distinct keys stay distinct. |
| PhpValues.MergeIntoNamed | repo/includes/api/ResultBuilder.php:332 | Merging arrays that have only string keys gives an array with only string keys. |
| PhpValues.NamedOnlyNotList | repo/includes/api/ResultBuilder.php:265-269 | An array with no int keys never counts as a list for the list check. |
| PhpValues.ArrayMerge | repo/includes/api/ResultBuilder.php:507 | `array_merge`: string keys of the second array win, all keys are distinct, and string-keyed inputs give a string-keyed result. |
| ApiTree.AddValue | repo/includes/api/ResultBuilder.php:144 | The write fails exactly when a scalar sits on the path. On success the node at the path is the old node with the value stored or appended, and every path off this one reads as before. |
| ApiTree.SetIndexedTagName | repo/includes/api/ResultBuilder.php:208 | The tag is stored as the node's `_element` entry; it fails exactly when the path is blocked. |
| ApiTree.ReadAfterWrite | repo/includes/api/ResultBuilder.php:169 | After a write the value reads back under its key. Every other key of the node is unchanged and no key is lost. |
| ApiTree.ArrayAtPathNotBlocked | repo/includes/api/ResultBuilder.php:335 | A path that leads to an array can be written again. |
| SerializationOptions.Merge | repo/includes/api/ResultBuilder.php:300-303 | Every field set in the second record wins; unset fields keep the first record's value. |
| SerializationOptions.MergeAssociative | repo/includes/api/ResultBuilder.php:300-303 | Merging is associative. |
| SerializationOptions.MergeNeutral | repo/includes/api/ResultBuilder.php:300-303 | The empty record is a neutral element on both sides, and merging a record with itself changes nothing. |
| SerializationOptions.SetSortOrder | repo/includes/api/ResultBuilder.php:408-412 | Sets the sort order and nothing else. |
| SerializationOptions.AddToParts | repo/includes/api/ResultBuilder.php:414-420 | The part is added to the parts list; the old parts are kept, nothing else is added, and no other field changes. |
| ResultBuilder.GetOptions | repo/includes/api/ResultBuilder.php:83-91 | An existing options object is returned unchanged. Otherwise a new one is created with index tags equal to raw mode, no sorting and nothing else set, and it is stored in the builder. The tree is unchanged. |
| ResultBuilder.GetOptionsIdempotent | repo/includes/api/ResultBuilder.php:83-91 | A second call returns the same builder and options as the first. |
| ResultBuilder.KeyOfValue | repo/includes/api/ResultBuilder.php:243-247 | Only strings and ints become array keys; each becomes the key of its own kind. |
| ResultBuilder.PathKeys | repo/includes/api/ResultBuilder.php:217-225 | An array path converts exactly when every element is a string or an int, and it converts element by element. |
| ResultBuilder.PathOf | repo/includes/api/ResultBuilder.php:217-225 | Null is the root, a string is one step, and an array is its elements. Any other value is no path. |
| ResultBuilder.Place | repo/includes/api/ResultBuilder.php:144 | A builder write fails with a result conflict exactly when the path is blocked. It changes only the tree, and nothing off the path. |
| ResultBuilder.SetValue | repo/includes/api/ResultBuilder.php:164-170 | Checks run in source order: path type, then name is a string, then value is not a list. Each has its own message. Success holds exactly when all checks pass and the path can be written. The value is then stored under the name and nothing else at or off the path changes. |
| ResultBuilder.StoredList | repo/includes/api/ResultBuilder.php:130-145 | In non-raw mode the values are written unchanged. In raw mode `_element` is dropped, the rest is renumbered 0..n-1 in the original order, and the tag is recorded. |
| ResultBuilder.SetList | repo/includes/api/ResultBuilder.php:130-145 | Checks path, name and tag in source order. On success the list (as prepared for the mode) is stored under the name, and nothing else at or off the path changes. |
| ResultBuilder.AppendValue | repo/includes/api/ResultBuilder.php:194-210 | Checks path, key, tag and not-a-list in order. In raw mode the key is ignored, the value goes to the next free index and the node's tag is set. In non-raw mode it is stored under the given key. In both modes no other key of the node changes (in raw mode apart from the tag). |
| ResultBuilder.TagAfterAppend | repo/includes/api/ResultBuilder.php:206-209 | Tagging after a raw append keeps the appended value under the next free index and records the tag. No other key of the node changes. |
| ResultBuilder.MarkSuccess | repo/includes/api/ResultBuilder.php:100-108 | Fails, writing nothing, exactly when `intval` of the argument is neither 0 nor 1. Otherwise root `success` becomes that integer and no other top-level key changes. |
| ResultBuilder.KeepSiteLinks | repo/includes/api/ResultBuilder.php:324-330 | Keeps exactly the sitelinks that are not arrays or whose `site` loosely equals a filter id (null only the empty id, a boolean any id of the same truth value), in their original order. |
| ResultBuilder.LinkKept | repo/includes/api/ResultBuilder.php:326-328 | A link the filter accepts stays, in front of the filtered rest, so order is kept. |
| ResultBuilder.LinkDropped | repo/includes/api/ResultBuilder.php:326-328 | A link the filter rejects is dropped. |
| ResultBuilder.FilterSiteLinks | repo/includes/api/ResultBuilder.php:324-330 | An empty filter, or no `sitelinks` entry, leaves the serialization as is. Otherwise only the `sitelinks` entry changes, to its filtered links. |
| ResultBuilder.EntityRecord | repo/includes/api/ResultBuilder.php:306-332 | With props equal to the empty list, the record is exactly `id` and `type`. Its keys are always distinct. |
| ResultBuilder.EntityRecordContents | repo/includes/api/ResultBuilder.php:309-332 | Otherwise every key reads from the site-filtered serialization, or failing that from the info fields, which appear exactly when props are `all` or contain `info`. |
| ResultBuilder.AddEntityRevision | repo/includes/api/ResultBuilder.php:283-336 | The builder's options absorb the given options. It fails exactly when the record is a list or `entities` is blocked. Outside raw mode the record is written under `entities`, keyed by the given key or else the entity id. In raw mode it takes the next free index and `entities` is tagged `entity`. No other entity is touched. |
| ResultBuilder.AppendRecord | repo/includes/api/ResultBuilder.php:335 | Appending a record under `entities` stores it under its key, or in raw mode under the next free index with the `entity` tag. Every other entry is kept. |
| ResultBuilder.AddBasicEntityInformation | repo/includes/api/ResultBuilder.php:346-349 | `id` and `type` of the entity are readable at the path; every other key of that node and everything off the path read as before. |
| ResultBuilder.AddLabels | repo/includes/api/ResultBuilder.php:359-364 | The labels serialized with the builder's options are stored as the `labels` list with tag `label`. |
| ResultBuilder.AddDescriptions | repo/includes/api/ResultBuilder.php:374-379 | The same for `descriptions` with tag `description`. |
| ResultBuilder.AddAliases | repo/includes/api/ResultBuilder.php:389-393 | The same for `aliases` with tag `alias`. |
| ResultBuilder.SiteLinkOptions | repo/includes/api/ResultBuilder.php:405-421 | `asc` wins over `desc`, and without either the sort order is kept. `url` adds the part `sitelinks/urls` and `removed` adds `sitelinks/removed`; no other part is added and the other fields are kept. |
| ResultBuilder.AddSiteLinks | repo/includes/api/ResultBuilder.php:404-429 | The flags change the builder's own options even when nothing is written. An empty serialization writes nothing. Otherwise the links are stored as the `sitelinks` list with tag `sitelink`. |
| ResultBuilder.ClaimsTag | repo/includes/api/ResultBuilder.php:444-446 | The tag is the set `_element` of the serialization, else `claim`. |
| ResultBuilder.AddClaims | repo/includes/api/ResultBuilder.php:439-447 | A tag that is not a string is rejected. Otherwise the claims are stored as the `claims` list under that tag. |
| ResultBuilder.AddClaim | repo/includes/api/ResultBuilder.php:456-465 | Root `claim` holds the serialized claim. It fails exactly when that is a list. |
| ResultBuilder.AddReference | repo/includes/api/ResultBuilder.php:474-483 | Root `reference` holds the serialized reference. It fails exactly when that is a list. |
| ResultBuilder.MissingKey | repo/includes/api/ResultBuilder.php:496-502 | The key is the explicit key, else the set `id` of the details, else the counter. It is never null. |
| ResultBuilder.MissingRecord | repo/includes/api/ResultBuilder.php:507 | The details plus `missing => ""`. Every other detail reads as before. |
| ResultBuilder.AddMissingEntity | repo/includes/api/ResultBuilder.php:495-512 | The counter goes down by one. It fails with the key message when the chosen key is neither a string nor an int. Outside raw mode the record is written under `entities` with that key. In raw mode it takes the next free index and `entities` is tagged `entity`. No other entity is touched. |
| ResultBuilder.AddRecord | repo/includes/api/ResultBuilder.php:495-512 | The same write, for a missing-entity record built in advance. |
| ResultBuilder.AddNormalizedTitle | repo/includes/api/ResultBuilder.php:521-527 | A name that is not a string is rejected as `setValue` does. Otherwise `normalized[name]` holds `from` and `to`, and nothing else at or off that path changes. |
| ResultBuilder.StatusRevision | repo/includes/api/ResultBuilder.php:548-549 | The status value's `revision` if it is set, else null. |
| ResultBuilder.AddRevisionIdFromStatus | repo/includes/api/ResultBuilder.php:544-561 | A falsy revision leaves the builder unchanged. A revision object stores its id as `lastrevid` at the path. Anything else truthy is a fatal call on a non-object. |
| GetEntities.PropsFromParams | repo/includes/api/GetEntities.php:188-194 | `sitelinks` is appended exactly when `sitelinks/urls` is requested; otherwise props are returned unchanged. |
| GetEntities.PropsFromParamsMeaning | repo/includes/api/GetEntities.php:188-194 | No prop is lost, and only `sitelinks` can be added. It is present exactly when `sitelinks` or `sitelinks/urls` was requested. |
| GetEntities.ChainMap | repo/includes/api/GetEntities.php:268-273 | Each requested code, and no other, maps to its fallback chain. |
| GetEntities.SerializationOptionsFor | repo/includes/api/GetEntities.php:265-288 | Sort order is ascending, parts are the props, and index tags follow raw mode. Languages are a code-to-chain map with fallback, else the plain list. Group-by-properties is empty exactly with `ungroupedlist`. |
| GetEntities.ParseIds | repo/includes/api/GetEntities.php:127-140 | Succeeds exactly when every id parses, keeping their order. Otherwise the error is `no-such-entity` naming the first id that does not parse. |
| GetEntities.FirstWith | repo/includes/api/GetEntities.php:120 | The first position holding an id with the given serialization, or -1 if none does. |
| GetEntities.Unique | repo/includes/api/GetEntities.php:120 | `array_unique`: every id appears once, the first occurrence is kept, and input order is preserved. |
| GetEntities.UniqueStep | repo/includes/api/GetEntities.php:120 | Appending one id extends the de-duplicated list exactly when that serialization is new. |
| GetEntities.EntityIdsFromParams | repo/includes/api/GetEntities.php:116-121 | A parse error aborts the request. Otherwise the ids are the parsed ids followed by the ids found by title, each kept once at its first occurrence and in that order, and nothing else. The items without an id are those of the title lookup. |
| GetEntities.ByTitle | repo/includes/api/GetEntities.php:146-154 | The title lookup runs only when both sites and titles are non-empty. |
| GetEntities.MergedIds | repo/includes/api/GetEntities.php:119-120 | Parsed ids followed by ids found by title, de-duplicated: every id of either list is present once, at its first occurrence and in that order, and no other id is present. |
| GetEntities.UniqueOfConcat | repo/includes/api/GetEntities.php:119-120 | De-duplicating a concatenation keeps every id of both parts. |
| GetEntities.GetEntityRevision | repo/includes/api/GetEntities.php:221-234 | A found revision is returned, and not-found gives null. A redirect gives null unless resolving, in which case the target is looked up once, so a redirect to a redirect gives null. |
| GetEntities.ResolvingFindsMore | repo/includes/api/GetEntities.php:221-234 | Resolving never changes a revision found directly. It only adds revisions for ids that are redirects. |
| GetEntities.Revisions | repo/includes/api/GetEntities.php:202-213 | The revision map has one distinct key per requested id. |
| GetEntities.RevisionsInOrder | repo/includes/api/GetEntities.php:202-213 | For distinct ids the map lists them in order, each under the requested id's serialization with its own lookup result, even when a redirect was followed. |
| GetEntities.AddItemRecord | repo/includes/api/GetEntities.php:175 | One missing item is written: in raw mode under the next free index, and otherwise, when it has no `id`, under the current counter. In those two cases nothing else in `entities` changes, apart from the raw-mode tag. |
| GetEntities.AddNextRecord | repo/includes/api/GetEntities.php:174-176 | One loop step keeps the invariant. It stores item `i` at the `i`-th index after the first free one in raw mode, and otherwise, when it has no `id`, under counter minus `i`. |
| GetEntities.AddRecords | repo/includes/api/GetEntities.php:173-177 | All items are written or the first failure stops the loop. Success holds exactly when every item is acceptable and `entities` can be written. The counter drops by the number of items. In raw mode the items take successive indexes from the first free one, in order. Outside raw mode, keyless items land under -1, -2, ... from the counter, without repeats. |
| GetEntities.MissingRecords | repo/includes/api/GetEntities.php:175 | Each item's missing-entity record, in order. |
| GetEntities.AddMissingItems | repo/includes/api/GetEntities.php:173-177 | No existing key is lost. In raw mode item `j` is stored as its details plus `missing` at the `j`-th index after the first free one. Outside raw mode, when no item has a key, item `j` is stored under the counter minus `j`. |
| GetEntities.MissingIdRecordIs | repo/includes/api/GetEntities.php:247 | The record for a missing id is `id` and `missing`, in that order. |
| GetEntities.MissingIdRecordNotList | repo/includes/api/GetEntities.php:247 | That record is never rejected as a list. |
| GetEntities.OptionsSettle | repo/includes/api/GetEntities.php:250-253 | Once merged into the builder, the request's options stay the same for every later entity. |
| GetEntities.HandleEntity | repo/includes/api/GetEntities.php:243-257 | A null revision writes `{id: key, missing: ""}` and decrements the counter. A revision writes the entity record built with the request's props, options and site filter. Outside raw mode the record is written under the requested key. In raw mode it takes the next free index and `entities` is tagged `entity`. No other entity changes. |
| GetEntities.HandleMissing | repo/includes/api/GetEntities.php:246-247 | The missing branch writes the missing record: under the key, or in raw mode under the next free index with the tag. Every other entity is kept. |
| GetEntities.HandleMissingAddsMissingEntity | repo/includes/api/GetEntities.php:247 | The missing branch is exactly `addMissingEntity(key, {id: key})`. |
| GetEntities.HandleRevision | repo/includes/api/GetEntities.php:248-254 | The present branch merges the request's options into the builder. It stores the entity record under the key, or in raw mode under the next free index with the tag. |
| GetEntities.HandleEntityWith | repo/includes/api/GetEntities.php:243-257 | Writing a prepared record: under the key, or in raw mode under the next free index with the tag. Options change only for a present revision. |
| GetEntities.HandleEntityIsWith | repo/includes/api/GetEntities.php:243-257 | Handling an entity at any point of the loop equals writing its record, computed with the request's options, in advance. |
| GetEntities.HandleStep | repo/includes/api/GetEntities.php:96 | One loop step writes its record under its key, or in raw mode under the next free index with the tag. Every other key is left alone. |
| GetEntities.HandleAt | repo/includes/api/GetEntities.php:95-97 | One loop step keeps the loop invariant. It writes record `i` under its key, or in raw mode at the `i`-th index after the first free one. |
| GetEntities.StoredByKeyStep | repo/includes/api/GetEntities.php:95-97 | Records written so far stay readable after the next one, because keys are distinct. |
| GetEntities.HandleRecords | repo/includes/api/GetEntities.php:95-97 | The loop succeeds exactly when no record is a list and `entities` can be written. Outside raw mode every revision's record is then readable under its own key, and int keys are untouched. In raw mode the records sit at successive indexes from the first free one, in map order, and lower indexes are untouched. |
| GetEntities.Finish | repo/includes/api/GetEntities.php:100-104 | In raw mode `entities` is tagged `entity`. `success` becomes 1, and every other key of `entities` is unchanged. |
| GetEntities.TagEntities | repo/includes/api/GetEntities.php:100-102 | Raw mode tags `entities` with `entity` and changes no other key of it. |
| GetEntities.Succeed | repo/includes/api/GetEntities.php:104 | `markSuccess(1)` always succeeds and leaves `entities` alone. |
| GetEntities.WriteEntities | repo/includes/api/GetEntities.php:92-104 | Writing succeeds exactly when the request is writable. Then `success` is 1. Outside raw mode every requested id reads its handled record under its serialization, and keyless missing items read under successive counter values. In raw mode the missing items' records come first at successive indexes from the first free one, then one record per requested id in request order, and `entities` carries the `entity` tag. |
| GetEntities.WriteIds | repo/includes/api/GetEntities.php:93-104 | The same, with the missing items' records given in advance. |
| GetEntities.WriteRevisions | repo/includes/api/GetEntities.php:95-104 | The same, stated over the revision map. |
| GetEntities.WriteRecords | repo/includes/api/GetEntities.php:95-104 | The same, for records given in advance: missing items, then one record per key, then the tag and `success`. |
| GetEntities.Execute | repo/includes/api/GetEntities.php:78-107 | `param-missing` when no ids are given and sites or titles are empty. A bad id gives `no-such-entity`. Otherwise the result is written exactly when writable, and `success` is 1. Outside raw mode each requested id is keyed by its own serialization. In raw mode its record sits at its request position after the title lookup's missing items, and `entities` is tagged `entity`. |
| MultilingualSerializer.LanguageAndSource | lib/tests/phpunit/serializers/MultilingualSerializerTest.php:83-98 | `language` is the term's language (the key for a bare value). `source-language` is present exactly for a record with a source. |
| MultilingualSerializer.TermHead | lib/tests/phpunit/serializers/MultilingualSerializerTest.php:126-182 | Adds `for-language = key` exactly in indexed mode when the language differs from the key. |
| MultilingualSerializer.TermFieldsDescribe | lib/tests/phpunit/serializers/MultilingualSerializerTest.php:23-182 | The field list describes the term: `removed` and no `value` for empty text, else `value`; `source-language` and `for-language` as above; no other field. |
| MultilingualSerializer.AssignedFieldsDescribe | lib/tests/phpunit/serializers/MultilingualSerializerTest.php:23-182 | The field-by-field construction describes the term in the same way. |
| MultilingualSerializer.AssignedFieldsInOrder | lib/tests/phpunit/serializers/MultilingualSerializerTest.php:23-182 | Both constructions give the same fields in the same order. |
| MultilingualSerializer.SerializeMultilingualValues | lib/tests/phpunit/serializers/MultilingualSerializerTest.php:190-195 | One entry per term. Record mode keys each entry by the term's key; indexed mode keys it by its position in input order. |
| MultilingualSerializer.SerializedDescribes | lib/tests/phpunit/serializers/MultilingualSerializerTest.php:190-195 | Each serialized entry describes its term. |
| MultilingualSerializer.ForLanguageSymmetry | lib/tests/phpunit/serializers/MultilingualSerializerTest.php:126-182 | An entry has `for-language` exactly in indexed mode when its language differs from its key. |
| MultilingualSerializer.FirstMatch | lib/tests/phpunit/serializers/MultilingualSerializerTest.php:228-267 | The first candidate of the chain whose fetch code is in the map, with that text. There is none exactly when no candidate matches. |
| MultilingualSerializer.FilterChains | lib/tests/phpunit/serializers/MultilingualSerializerTest.php:228-267 | Each requested key gets its chain's preferred value, and a key with no match is absent. No other key appears. |
| MultilingualSerializer.FilterPlain | lib/tests/phpunit/serializers/MultilingualSerializerTest.php:200-226 | A key is present exactly when it is requested and in the map. It then holds the text in its own language with no source, and empty text stays a value. |
| MultilingualSerializer.SelfChains | lib/tests/phpunit/serializers/MultilingualSerializerTest.php:200-226 | One self-only chain per code. |
| MultilingualSerializer.PlainIsSelfChains | lib/tests/phpunit/serializers/MultilingualSerializerTest.php:200-267 | Filtering by a code list equals filtering by self-only chains. |
| MultilingualSerializer.FilterPreferredMultilingualValues | lib/tests/phpunit/serializers/MultilingualSerializerTest.php:275-280 | Unset languages pass every value through as bare text. A code list filters plainly, and chains filter by fallback. |
| MultilingualSerializer.FilterThenSerialize | lib/tests/phpunit/serializers/MultilingualSerializerTest.php:228-267 | After filtering by chains and serializing in indexed mode, each entry's language is its first matching candidate's. It has `for-language` exactly when that differs from the requested key. |
| MultilingualTables.BareFields | lib/tests/phpunit/serializers/MultilingualSerializerTest.php:25-48 | A non-empty bare value under `k` serializes to `{language: k, value}`. |
| MultilingualTables.EmptyBareFields | lib/tests/phpunit/serializers/MultilingualSerializerTest.php:28 | An empty bare value serializes to `{language: k, removed: ""}`. |
| MultilingualTables.SerializeBareRecordMode | lib/tests/phpunit/serializers/MultilingualSerializerTest.php:23-49 | The record-mode table of bare values, with `it` removed. |
| MultilingualTables.SerializeBareIndexedMode | lib/tests/phpunit/serializers/MultilingualSerializerTest.php:51-77 | The indexed-mode table of bare values, in input order. |
| MultilingualTables.SerializeRecordsRecordMode | lib/tests/phpunit/serializers/MultilingualSerializerTest.php:79-124 | The record-mode table of records: `source-language` for `zh-tw` and `sr-ec`, and no `for-language` even for `de-formal`. |
| MultilingualTables.RomeRecordFields | lib/tests/phpunit/serializers/MultilingualSerializerTest.php:83-98 | The rows of that table one by one. |
| MultilingualTables.SerializeRecordsIndexedMode | lib/tests/phpunit/serializers/MultilingualSerializerTest.php:126-182 | The indexed-mode table of records: `for-language` for `de-formal` and `sr-ec` only, and empty `it` and `fr` removed. |
| MultilingualTables.RomeIndexedFields | lib/tests/phpunit/serializers/MultilingualSerializerTest.php:130-180 | The rows of that table one by one. |
| MultilingualTables.FilterPlainCodes | lib/tests/phpunit/serializers/MultilingualSerializerTest.php:200-226 | The plain-codes table: `en`, `de` and `it` (empty text kept) are present; the absent `fr` and the unrequested `fi` are not. |
| MultilingualTables.PlainLookup | lib/tests/phpunit/serializers/MultilingualSerializerTest.php:200-226 | A key reads as its own-language record exactly when it is requested and present. |
| MultilingualTables.FilterFallbackChains | lib/tests/phpunit/serializers/MultilingualSerializerTest.php:228-267 | The fallback table: `de-formal` falls back to `de` and `key-fr` to `en`, both with no source. `zh-cn` is converted from `zh-tw`, `gan-hant` matches directly, and the self-only `sr-ec` is absent. |
| MultilingualTables.RomeChainsLookups | lib/tests/phpunit/serializers/MultilingualSerializerTest.php:228-267 | The same table, read key by key through the chain filter. |
| MultilingualTables.RomeChainsPreferred | lib/tests/phpunit/serializers/MultilingualSerializerTest.php:232-236 | Each chain of the table picks its expected candidate. |

## Left out

- `ApiResult` is not part of this model.
  - Its `addValue` is taken to overwrite an existing key. The real class has its own conflict handling, which is not modelled.
  - Its size limits and its handling of the `_element` meta key beyond storing it are not modelled.
- `SerializationOptions`, `SerializerFactory` and the per-kind serializers are not part of this model.
  - The serializers are function parameters.
  - `merge` is taken to let the other object's set options win, and `addToOption` to append a value that is missing.
- PHP's conversion of numeric-string keys (`"5"`) to int keys is not modelled; a string key stays a string key.
- Objects other than revisions (titles, statuses, entities) are reduced to the fields the builder reads.
- The following are function parameters: the title lookup, `wfTimestamp`, the id parser, the revision lookup, the item-by-title helper, the fallback-chain factory and script conversion.
- Profiling calls, `getAllowedParams`, `getParamDescription`, `getExamples` and `getDescription` are left out; they hold no result logic.
- `SetDescription` and `MessageReporter` are not part of this model: the first is a thin wrapper over a change operation, the second an interface.
- The multilingual serializer class is modelled from its unit test alone; its own source is not part of this model.
- `GetEntities.Execute` runs the per-entity loop over records computed in advance. `GetEntities.HandleEntityIsWith` proves this equal to calling `handleEntity` at each step.
- PhpValues.NextIndex: the index is computed from the keys present. PHP keeps its own next-free counter, which an `unset` of the last index does not lower, so the model covers arrays built without such an `unset`; no path of this model appends after one.
- GetEntities.AddMissingItems: outside raw mode, missing items that carry an `id` are not located; they go under their own ids, which may coincide with each other or with requested ids. The same holds for `GetEntities.AddRecords`.
- GetEntities.WriteEntities: outside raw mode, missing items are located only when none carries an `id`, as for `GetEntities.AddMissingItems`. The same holds for `GetEntities.WriteIds`, `GetEntities.WriteRevisions` and `GetEntities.WriteRecords`.
- GetEntities.Execute: does not restate where the missing items land; `GetEntities.WriteEntities` does.
- ResultBuilder.KeepSiteLinks: a `site` that is an int, or a numeric string compared with a numeric id, is compared strictly, not numerically as PHP's loose `in_array` would (`0` equals `"enwiki"`, `"1e1"` equals `"10"`); site ids are global ids such as `enwiki`, never numbers.
- ResultBuilder.MarkSuccess: the default argument `true` is not modelled; callers pass `VBool(true)`.
- ResultBuilder.AddEntityRevision: the defaults `$options = null`, `$props = 'all'` and `$siteIds = array()` are not modelled; callers pass `None`, `PropsString("all")` and `[]`.
- ResultBuilder.AddNormalizedTitle: the default name `'n'` is not modelled; callers pass `VStr("n")`.
- PhpValues.MergeInto: states the result for string keys only. Renumbering of int keys is not stated, because the builder merges only string-keyed arrays.
- PhpValues.ArrayMerge: the same limitation as `PhpValues.MergeInto`.
