# AssetMetadata: the course-asset metadata record

This project models `AssetMetadata`, the record the modulestore keeps for
each course asset (common/lib/xmodule/xmodule/assetstore/__init__.py). An
asset is identified by its `asset_id` key. Beside the key it carries seven
attributes:

- three stored at the top level of its Mongo document: `basename`,
  `internal_name` and `locked`;
- four edit-provenance attributes stored under `edit_info`: `curr_version`,
  `prev_version`, `edited_by` and `edited_on`.

The record can be built with any of these attributes, updated from a
dictionary through a whitelist (`set_attrs`), written to a Mongo document
(`to_mongo`) and refilled from one (`from_mongo`). Two records are equal
when their keys are.

The files:

- `values.dfy` (module `Values`): the Python values that travel through the
  record. It has `None`, strings, booleans, integers, an opaque timestamp
  for `datetime`, and string-keyed dictionaries. It also has the exceptions
  the code can raise, and Python's `d[key]` as `Subscript`.
- `assetstore.dfy` (module `AssetStore`): the attribute names and the three
  attribute lists, and the class `AssetMetadata` with its constructor,
  `Equals`, `SetAttrs`, `ToMongo` and `FromMongo`. It also holds the
  functions that specify them on values:
  - `Overlay`: what `set_attrs` leaves behind;
  - `ReadDoc`, built from `Fill`: what `from_mongo` leaves behind and what
    it raises.
- `assetstore_props.dfy` (module `AssetStoreProps`): properties that relate
  several operations:
  - `set_attrs` does not depend on iteration order;
  - unknown keys are ignored;
  - the `to_mongo`/`from_mongo` round trip;
  - `from_mongo` is not atomic;
  - the key is never touched.
- `repr.dfy` (module `AssetRepr`): the placeholder numbering of `__repr__`
  (see Findings).

`from_mongo` works step by step, and the model keeps that. It reads the
three top-level attributes, then `edit_info`, then the four edit
attributes, assigning each as soon as it is read. A missing key raises
`KeyError` part-way, and the attributes assigned before it stay assigned.
`set_attrs` walks the dictionary in whatever order it yields its keys. The
method picks the next key with `:|`, so its proof holds for every order.
The lemma `SetAttrsAnyOrder` shows that every enumeration order ends in the
same state.

## Model

| member | source | states |
|---|---|---|
| AssetStore.AttrGroups | common/lib/xmodule/xmodule/assetstore/__init__.py:12-14 | `ALLOWED_ATTRS` is the two lists joined. Every attribute other than the key is in it, in exactly one of `TOP_LEVEL_ATTRS` and `EDIT_INFO_ATTRS`. No two attributes share a name. |
| AssetStore.Lookup | common/lib/xmodule/xmodule/assetstore/__init__.py:12-14 | `attr in ALLOWED_ATTRS`. When a key is found, it is the name of a whitelisted attribute. When no key is found, no attribute has that name. |
| Values.Subscript | common/lib/xmodule/xmodule/assetstore/__init__.py:89-96 | Python `d[key]`. It succeeds exactly when `d` is a dict holding the key, and then gives the stored value. Otherwise it raises `KeyError(key)` on a dict and `TypeError` on anything else. |
| AssetStore.Set | common/lib/xmodule/xmodule/assetstore/__init__.py:61 | `setattr` on a whitelisted name changes that attribute to the new value and no other. |
| AssetStore.AttrsExtensionality | common/lib/xmodule/xmodule/assetstore/__init__.py:33-40 | Two attribute sets that agree on all seven attributes are the same. |
| AssetStore.Overlay | common/lib/xmodule/xmodule/assetstore/__init__.py:52-61 | After `set_attrs(d)`, an attribute whose name is a key of `d` holds `d`'s value for it. Every other attribute keeps its old value. |
| AssetStore.OverlayStep | common/lib/xmodule/xmodule/assetstore/__init__.py:59-61 | One loop iteration: handling a key extends the result for the keys already handled. A whitelisted key is written; any other key changes nothing. |
| AssetStore.AssetMetadata.SetAttr | common/lib/xmodule/xmodule/assetstore/__init__.py:61 | `setattr(self, attr, val)`: the attribute is updated in place as `Set` says, and the key is unchanged. |
| AssetStore.AssetMetadata.SetAttrs | common/lib/xmodule/xmodule/assetstore/__init__.py:52-61 | The loop over the dictionary, in any iteration order, leaves the attributes equal to `Overlay` of the old attributes and the dictionary. The order the items were taken in enumerates the dictionary, and the state is also `ApplyItems` over that order. The key is unchanged. |
| AssetStore.ApplyItems | common/lib/xmodule/xmodule/assetstore/__init__.py:59-61 | The loop of `set_attrs` run over the items in one given iteration order, writing each whitelisted key. Its contract is stated by `SetAttrsAnyOrder`: every such order gives `Overlay`. |
| AssetStore.ApplyItemsSnoc | common/lib/xmodule/xmodule/assetstore/__init__.py:59-61 | Handling one more item after the others is one more loop iteration: a whitelisted key is written, any other key changes nothing. |
| AssetStore.EnumeratesSnoc | common/lib/xmodule/xmodule/assetstore/__init__.py:59 | Taking one more key out of the pending keys extends the enumeration of the handled keys by that key's item. |
| AssetStoreProps.SetAttrsAnyOrder | common/lib/xmodule/xmodule/assetstore/__init__.py:59-61 | Applying the items one by one, in any order that lists each key once, gives `Overlay` of the dictionary. |
| AssetStoreProps.EnumeratesTail | common/lib/xmodule/xmodule/assetstore/__init__.py:59 | After the first item of an iteration, the remaining items list exactly the other keys of the dictionary. |
| AssetStoreProps.OverlayAfterStep | common/lib/xmodule/xmodule/assetstore/__init__.py:59-61 | Writing one key first and the remaining keys afterwards equals writing the whole dictionary. |
| AssetStoreProps.UnknownKeyIgnored | common/lib/xmodule/xmodule/assetstore/__init__.py:60 | Adding a key outside `ALLOWED_ATTRS` to the dictionary, with any value, leaves the result of `set_attrs` the same. |
| AssetStoreProps.OnlyAllowedKeysMatter | common/lib/xmodule/xmodule/assetstore/__init__.py:52-61 | `set_attrs(d)` equals `set_attrs` of `d` restricted to whitelisted keys. A dictionary with no whitelisted key leaves every attribute unchanged. |
| AssetStoreProps.SetAttrsIdempotent | common/lib/xmodule/xmodule/assetstore/__init__.py:52-61 | Applying the same dictionary twice has the same effect as applying it once. |
| AssetStore.AssetMetadata.constructor | common/lib/xmodule/xmodule/assetstore/__init__.py:16-40 | Stores the key and each given attribute. Omitted attributes are `None`. Extra keyword arguments are accepted and stored nowhere; they never include the key or an attribute name, which Python binds to their own parameters. |
| AssetStore.AssetMetadata.Equals | common/lib/xmodule/xmodule/assetstore/__init__.py:42-43 | `__eq__` holds exactly when the keys are equal, whatever the other attributes hold. |
| AssetStoreProps.EqualsIsEquivalence | common/lib/xmodule/xmodule/assetstore/__init__.py:42-43 | `__eq__` is reflexive, symmetric and transitive. |
| AssetStore.AssetMetadata.ToMongo | common/lib/xmodule/xmodule/assetstore/__init__.py:63-78 | The document has exactly the keys `filename`, `basename`, `internal_name`, `locked` and `edit_info`. `filename` is the key's path, and the top-level attributes sit under their own names. `edit_info` is a dict with exactly the four edit attributes under their own names. |
| AssetStore.Fill | common/lib/xmodule/xmodule/assetstore/__init__.py:89-96 | One run of `from_mongo`'s assignments (lines 89-91 or 93-96): each listed attribute is read by subscript and assigned in order, and the run stops at the first subscript that raises. Its contract is stated by the lemmas `FillStopsAtFirst`, `FillRaises`, `FillFrame` and `FillReads`. |
| AssetStore.FillStopsAtFirst | common/lib/xmodule/xmodule/assetstore/__init__.py:89-96 | When the first attribute that cannot be read is the `j`-th, the run raises that subscript's exception. The attributes before it already hold the source's entries, and every other attribute keeps its old value. |
| AssetStore.FillRaises | common/lib/xmodule/xmodule/assetstore/__init__.py:89-96 | A run of assignments raises exactly when one of its keys cannot be read. It raises `TypeError` on a non-dict, otherwise `KeyError` for one of its own keys that is missing. |
| AssetStore.FillFrame | common/lib/xmodule/xmodule/assetstore/__init__.py:89-96 | A run of assignments leaves every attribute outside its list unchanged. |
| AssetStore.FillReads | common/lib/xmodule/xmodule/assetstore/__init__.py:89-96 | An attribute in the list ends up either unchanged or equal to the source's entry. When nothing is raised, every attribute in the list equals the entry. |
| AssetStore.ReadDoc | common/lib/xmodule/xmodule/assetstore/__init__.py:86-88 | `from_mongo(None)` changes nothing and raises nothing. A document that is neither `None` nor a dict fails the assert and changes nothing. |
| AssetStore.ReadDocRaises | common/lib/xmodule/xmodule/assetstore/__init__.py:86-96 | `from_mongo` raises nothing exactly when it is given `None`, or a dict in which every top-level key, `edit_info` and every edit key can be read. |
| AssetStore.ReadDocWellFormed | common/lib/xmodule/xmodule/assetstore/__init__.py:89-96 | On such a document, each top-level attribute equals the document's entry of its name. Each edit attribute equals the entry of its name in `edit_info`. |
| AssetStore.AssetMetadata.FromMongo | common/lib/xmodule/xmodule/assetstore/__init__.py:80-96 | The attributes become, in place, what `ReadDoc` gives for the old attributes and the document, and the exception returned is `ReadDoc`'s. The key is unchanged. |
| AssetStore.AssetMetadata.ReadTopLevel | common/lib/xmodule/xmodule/assetstore/__init__.py:89-91 | The three top-level assignments, in order, behave as `Fill` over `TOP_LEVEL_ATTRS`. The key is unchanged. |
| AssetStore.AssetMetadata.ReadEditInfo | common/lib/xmodule/xmodule/assetstore/__init__.py:93-96 | The four `edit_info` assignments, in order, behave as `Fill` over `EDIT_INFO_ATTRS`. The key is unchanged. |
| AssetStoreProps.FillReadsOnlyNames | common/lib/xmodule/xmodule/assetstore/__init__.py:89-96 | A run of assignments depends on nothing in the dict except the entries of its own keys. |
| AssetStoreProps.FromMongoIgnoresFilename | common/lib/xmodule/xmodule/assetstore/__init__.py:80-85 | Whatever `filename` holds in the document, `from_mongo` has the same effect. The key is set only at construction. |
| AssetStoreProps.ToMongoWellFormed | common/lib/xmodule/xmodule/assetstore/__init__.py:63-96 | Every key that `from_mongo` reads is present in what `to_mongo` writes. |
| AssetStoreProps.RoundTrip | common/lib/xmodule/xmodule/assetstore/__init__.py:63-96 | Reading back what `to_mongo` wrote raises nothing and restores all seven attributes, whatever the reader held before. |
| AssetStoreProps.FromMongoStopsPartWay | common/lib/xmodule/xmodule/assetstore/__init__.py:89-92 | Suppose a document has every top-level key but no `edit_info`. Then `from_mongo` raises `KeyError('edit_info')` after overwriting the three top-level attributes, and the four edit attributes keep their old values. |
| AssetStoreProps.CopyThroughMongo | common/lib/xmodule/xmodule/assetstore/__init__.py:63-96 | `b.from_mongo(a.to_mongo())` raises nothing. `b` ends up with `a`'s seven attributes and keeps its own key. |
| AssetRepr.Format | common/lib/xmodule/xmodule/assetstore/__init__.py:46-47 | `str.format` with numbered placeholders: each placeholder is replaced by the argument it numbers. Its contract is stated by `FormatRaises`, `FormatAppend` and `FormatPair`. |
| AssetRepr.ReprTemplate | common/lib/xmodule/xmodule/assetstore/__init__.py:46 | The repr template literal: `AssetMetadata('`, eight placeholders numbered from a given first index and separated by `', '`, then `')`. As written the first index is 1. |
| AssetRepr.FormatRaises | common/lib/xmodule/xmodule/assetstore/__init__.py:46-47 | `str.format` with numbered placeholders raises exactly when a placeholder is past the last argument, and the exception is `IndexError`. |
| AssetRepr.FormatAppend | common/lib/xmodule/xmodule/assetstore/__init__.py:46-47 | Formatting two templates joined succeeds exactly when both parts succeed. The text is then the two texts joined. |
| AssetRepr.FormatPair | common/lib/xmodule/xmodule/assetstore/__init__.py:46-47 | Literal text followed by a placeholder in range formats to that text followed by the argument the placeholder numbers. |
| AssetRepr.ReprAsWrittenRaises | common/lib/xmodule/xmodule/assetstore/__init__.py:45-50 | The repr template as written (placeholders `{1}` to `{8}`) raises `IndexError` for every eight arguments. |
| AssetRepr.ReprFromZero | common/lib/xmodule/xmodule/assetstore/__init__.py:45-50 | Numbered from `{0}`, the template never raises. It yields `AssetMetadata('` followed by the eight arguments in order, separated by `', '`, and then `')`. |

## Left out

- The `opaque_keys` types `CourseKey` and `AssetKey` come from a foreign library. `asset_id` is a datatype compared by equality, with a `path` field (the only part that is read).
- Python values are limited to `None`, strings, booleans, integers, an opaque timestamp and string-keyed dicts. Lists, floats and objects that define their own `__eq__` or `__getitem__` are not modelled. Neither are dict keys that are not strings.
- The `datetime` of `edited_on` is an opaque number. Nothing in the modelled code looks inside it.
- Python run with `-O` drops the `isinstance` assert in `from_mongo`. The model keeps asserts enabled, so a non-dict document gives `AssertionError` and leaves the record unchanged.
- AssetStore.AssetMetadata.SetAttrs: takes a string-keyed dict only. Python's `set_attrs` on an object without `iteritems` raises `AttributeError`, and that case is not modelled.
- AssetStore.AssetMetadata.Equals: compares with another `AssetMetadata` only. Python's `__eq__` against an object without `asset_id` raises `AttributeError`, and that case is not modelled.
- AssetStore.AssetMetadata.FromMongo: the seven assignments are split into two helper methods, `ReadTopLevel` and `ReadEditInfo`, which keep the source's order and its early exits.
- `__repr__` is modelled only for its placeholder numbering. Converting the eight field values to strings is left out, and the arguments are taken as already rendered.
- AssetRepr.ReprFromZero: the expected text is stated through the helper `Listed`, the arguments in order behind the separator, rather than as one literal concatenation of eight arguments.
- The other files of the repository (comment-service views and tests, hint-store tests, quality scripts, cohort UI, Selenium page objects) are not part of this model. They are I/O, UI or tests of code that is not shown.

## Findings

| source | as written | input that shows it | evidently intended | confidence | as-written member | corrected member |
|---|---|---|---|---|---|---|
| common/lib/xmodule/xmodule/assetstore/__init__.py:45-50 | `__repr__` formats a template with placeholders `{1}` to `{8}` from eight positional arguments, indexed 0 to 7 | any `AssetMetadata`: `repr(m)` reaches `{8}` and raises `IndexError` | placeholders `{0}` to `{7}`, giving `AssetMetadata('<asset_id>', '<basename>', ...)` | high; not executed | AssetRepr.ReprAsWrittenRaises | AssetRepr.ReprFromZero |
