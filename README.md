# A verified model of a small crawler and a JSON-Schema generator

This project models two independent components of a small Python repository in Dafny.

**The crawler** (`Spider/spider.py`). A `Spider` starts from a seed address and fetches pages depth first. It follows every anchor's `href` until a depth budget runs out. Each fetched page becomes an `(url, content)` row in a staging buffer, the *accumulator*. The accumulator is flushed into the *memory* table once it holds `accumulator_max_size` (10) rows, and once more when the memory is saved. An address is skipped when its depth budget is 0, or when it is already in memory. The membership test looks at memory only, not at rows still staged. A failed fetch abandons that branch.

In the model, the network and the HTML parser become an oracle, `Web`. It maps an address to a `Page`: the prettified document plus the `href` of every anchor in document order, where `None` stands for an anchor without an `href`. An address that is not a key stands for a failed request. The class `Crawler.Spider` keeps the source's fields (`baseUrl`, `memory`, `accumulator`, `accumulatorMaxSize`), and its methods update them in place. `SpidyTrip` is a recursive method with a loop over the anchors, just as in the source. It is proved equal to the function `Visit`, which applies `spidy_trip` to a `Store` value holding the two fields. The properties are then proved about `Visit`:
- memory is append-only;
- the log of captured rows (memory followed by the accumulator) only grows, and only with rows whose fetch succeeded;
- the accumulator stays below its threshold;
- a skipped or failed visit changes nothing;
- termination follows from `depth` decreasing.

Four concrete crawls of a three-page site are worked out in `CrawlerScenarios`. One of them shows the source fetching and saving the same page twice, because the page is still staged when a back link reaches it.

**The schema generator** (`JSONSchema/generator.py`). `JSONSchemaGenerator` turns a Python class into a JSON Schema (draft-04) object. Reflection is replaced by explicit inputs:
- a type annotation is a `PyType` (`str`, `int`, `bool`, `float`, `NoneType`, `List[T]`, `Dict[K, V]`, a class, a `Union`, or anything else);
- a class is a `PyClass`: its name, its annotations in declaration order, and the class attributes that `hasattr`/`getattr` can see.

JSON values are `JsonValue.Json`. Objects are insertion-ordered key/value sequences, and `Put` models Python's `d[k] = v`. `TypeToJsonType` follows `type_to_json_type` branch by branch. The method `Generate` builds the schema with the source's loop over the annotations, and is proved equal to the function `SchemaOf`. Lemmas then state:
- which keys and values the schema object has;
- that `properties` holds exactly one entry per annotation;
- that descriptions appear exactly when their attributes exist;
- that plain annotations can be read back from their fragments;
- that "unknown" appears exactly when part of an annotation is unsupported.

`JSONSchema/main.py` contains the same class with the constructor's docstring removed. Its `def __init__` at line 35 is `generator.py:36`, and from line 36 on each line is the line four further down in `generator.py` (for example `main.py:36-37` is `generator.py:40-41` and `main.py:66-97` is `generator.py:70-101`). The `JsonSchema` module therefore models both files, and the table below cites `generator.py`.

Memory is not unique by address, because the membership test ignores rows that are still staged (see `CrawlerScenarios.CrawlDepthThreeSavesHomeTwice`), so no uniqueness is claimed. The generator also nests a compound type's fragment under `"type"`: for example, a property of type `List[int]` becomes `{"type": {"type": "array", ...}}`. The model keeps this shape too.

Files:
- `wrappers.dfy`: `Option` and `Result`.
- `crawler.dfy`: module `Crawler` (the spider) and module `CrawlerScenarios` (worked crawls).
- `json_value.dfy`: module `JsonValue` (JSON values and ordered-dict `Get`/`Put`).
- `json_schema.dfy`: module `JsonSchema` (annotations, the type mapping, the generator).

## Model

| member | source | states |
|---|---|---|
| `Crawler.ValidateUrl` | Spider/spider.py:61-69 | The resolved address always ends with the original target. When the base address starts with "http", so does every resolved address. |
| `Crawler.Fetch` | Spider/spider.py:19-26 | `get_response` against the oracle: a page exactly when the address is a key of `Web`, and then the page stored there; `None` otherwise. |
| `Crawler.ValidateUrlIdempotent` | Spider/spider.py:61-69 | Resolving a resolved address changes nothing when the target or the base address starts with "http". |
| `Crawler.ValidateUrlNotIdempotentWithoutScheme` | Spider/spider.py:66-69 | With the base "x.com", resolving "a" twice gives "x.com/x.com/a", so idempotence needs an http base. |
| `Crawler.ValidateUrlExamples` | Spider/spider.py:62-69 | Each of the four rules on concrete targets: "/a", "//cdn.y.com/b", "c" and an absolute target. An unset base prints as "None". |
| `Crawler.Flush` | Spider/spider.py:56-59 | `update_memory` on values: the log of captured rows is unchanged and the accumulator is empty afterwards. |
| `Crawler.Capture` | Spider/spider.py:40-43 | Staging a fetched page appends its row to the log. A buffer below the threshold stays below it. When it flushes is stated by `CaptureBelow` and `CaptureAtThreshold`. |
| `Crawler.CaptureBelow` | Spider/spider.py:40-43 | A row that leaves the buffer below the threshold is only appended to it; memory is untouched. |
| `Crawler.CaptureAtThreshold` | Spider/spider.py:40-43 | A row that brings the buffer to the threshold triggers the flush: memory gains the staged rows and the new row, and the buffer is empty. |
| `Crawler.Visit` | Spider/spider.py:28-54 | `spidy_trip` on values: the skip test, the fetch, the staging step and the recursion with `depth - 1` over the page's anchors. Its properties are the contracts of `VisitEffects`, `VisitGrows` and `VisitKeepsCaptured`. |
| `Crawler.VisitAll` | Spider/spider.py:45-54 | The loop over the anchors: each present, non-empty target is resolved by `validate_url` and visited in document order. Its properties are the contract of `VisitAllGrows`. |
| `Crawler.Spider.constructor` | Spider/spider.py:8-14 | A new spider has the given base address, empty memory, an empty accumulator and a threshold of 10. |
| `Crawler.Spider.SetLanding` | Spider/spider.py:16-17 | Replaces the base address and changes nothing else. |
| `Crawler.Spider.UpdateMemory` | Spider/spider.py:56-59 | Memory becomes the old memory followed by the old accumulator rows in order, and the accumulator becomes empty. With an empty accumulator, memory is unchanged. The log of captured rows is unchanged. |
| `Crawler.Spider.SaveMemory` | Spider/spider.py:71-73 | Flushes before saving: memory gains the staged rows and the accumulator becomes empty. |
| `Crawler.Spider.SpidyTrip` | Spider/spider.py:28-54 | The new fields equal `Visit` of the old ones. Nothing changes when depth is 0, the address is already in memory, or the fetch fails. Otherwise the page's row is the next row of the log. Old memory is a prefix of the new memory. An accumulator below the threshold stays below it. |
| `Crawler.VisitEffects` | Spider/spider.py:28-43 | `Visit` is the identity exactly in the skip and failed-fetch cases. Otherwise the visited page's row is the first row it adds. In every case the state grows. |
| `Crawler.VisitGrows` | Spider/spider.py:28-54 | After a visit, old memory is a prefix of the new memory and the old log a prefix of the new log. Every added row was captured from the web. An accumulator below the threshold stays below it. Proved by induction on depth and the anchors. |
| `Crawler.VisitAllGrows` | Spider/spider.py:50-54 | The same growth property for the loop over a page's anchors, where empty and missing targets are skipped. |
| `Crawler.VisitCaptures` | Spider/spider.py:32-43 | A visit with depth left, to an address not in memory whose fetch succeeds, puts that page's row next in the log. |
| `Crawler.VisitKeepsCaptured` | Spider/spider.py:32-40 | If every logged row came from a successful fetch, this still holds after a visit. Under the fixed oracle, an address whose fetch fails is never saved. |
| `Crawler.CaptureGrows` | Spider/spider.py:40-43 | Staging a page appends exactly its row to the log, whether or not the threshold triggers a flush, and keeps the accumulator below the threshold. |
| `Crawler.FlushIdempotent` | Spider/spider.py:56-59 | Flushing twice equals flushing once, and a flush does not change the log. |
| `CrawlerScenarios.CrawlDepthTwo` | Spider/spider.py:28-54 | Depth 2 from a home page linking to /a and /b, where /a links back home: home, /a and /b are saved once each, in visiting order. |
| `CrawlerScenarios.CrawlSurvivesFailedFetch` | Spider/spider.py:32-34 | The same crawl with /b unreachable completes and saves only home and /a. |
| `CrawlerScenarios.CrawlDepthThreeSavesHomeTwice` | Spider/spider.py:29-30 | At depth 3 the back link reaches home while home is still staged, so home is fetched and saved twice. |
| `CrawlerScenarios.CrawlDepthThreeFlushingEachRow` | Spider/spider.py:42-43 | With a threshold of 1, every row is in memory before the back link is followed, and nothing is saved twice. |
| `JsonValue.Put` | JSONSchema/generator.py:60-62 | Dict assignment: the key is bound to the new value and every other key keeps its value. The key order is unchanged, except that a new key goes last. |
| `JsonSchema.NewGenerator` | JSONSchema/generator.py:36-42 | The constructor succeeds exactly for a class and keeps it. Anything else fails with `TypeError("Expected a class type")`. |
| `JsonSchema.TypeToJsonType` | JSONSchema/generator.py:70-101 | `type_to_json_type`: every fragment is a type name ("string", "integer", "boolean", "number" or "unknown") or an object whose first key is "type" or "$ref". The lemmas below state the fragment of every plain annotation (through the inverse `JsonTypeToType`), that `Optional[T]` maps as `T`, that `type(None)` maps to a class reference, and when "unknown" appears. The `List`/`Dict` rules over arguments that are not plain are the function's own branches. |
| `JsonSchema.NoneTypeIsClassReference` | JSONSchema/generator.py:92-94 | `type(None)` is a class, so it maps to the reference `#/definitions/NoneType`, exactly as a class named "NoneType" does. |
| `JsonSchema.OptionalUnwraps` | JSONSchema/generator.py:95-100 | `Union[T, None]` and `Union[None, T]` both map to the fragment of `T`. |
| `JsonSchema.UnsupportedIsUnknown` | JSONSchema/generator.py:83-101 | A union that is not a two-member union with `None` maps to "unknown". So does a dict whose key type is not `str`, and any unrecognised annotation. |
| `JsonSchema.PlainRoundTrip` | JSONSchema/generator.py:70-94 | For annotations built from primitives, `List`, `Dict[str, _]` and classes, the annotation can be read back from its fragment. The mapping loses nothing on them. Proved by structural induction. |
| `JsonSchema.PlainInjective` | JSONSchema/generator.py:70-94 | Two different plain annotations never share a fragment. |
| `JsonSchema.UnknownIffUnsupported` | JSONSchema/generator.py:70-101 | "unknown" occurs in a fragment exactly when part of the annotation is unsupported: a non-`str` dict key, a union other than `Optional`, or an unrecognised type. Proved by structural induction. |
| `JsonSchema.PropertySchema` | JSONSchema/generator.py:55-60 | The entry one annotation adds to `properties`; its shape is the contract of `PropertySchemaShape`. |
| `JsonSchema.Properties` | JSONSchema/generator.py:53-62 | The `properties` dict after the loop has handled a prefix of the annotations: its keys are exactly the names handled so far, and it has at most one entry per annotation. |
| `JsonSchema.PropertySchemaShape` | JSONSchema/generator.py:55-60 | A property entry has "type" bound to the annotation's fragment. It has "description" exactly when `_<attr>_description` exists, bound to that attribute's value. |
| `JsonSchema.PropertiesKeys` | JSONSchema/generator.py:53-62 | The keys of `properties` are the annotated names, in declaration order. |
| `JsonSchema.PropertiesOnePerAnnotation` | JSONSchema/generator.py:53-62 | `properties` has exactly one entry per annotation, keyed by the attribute name and equal to that annotation's property entry. |
| `JsonSchema.DistinctNamesPairwise` | JSONSchema/generator.py:53-54 | Distinct annotation names differ pairwise, as the keys of the annotations dict do. |
| `JsonSchema.PairwiseDistinctNames` | JSONSchema/generator.py:53-54 | Names that differ pairwise, as the keys of the annotations dict do, are distinct names, so every class meets the `requires` of `PropertiesKeys` and `PropertiesOnePerAnnotation`. |
| `JsonSchema.SchemaFields` | JSONSchema/generator.py:45-51 | The dict literal `generate` starts from has the keys "id", "$schema", "type", "properties" and "required", in that order. |
| `JsonSchema.SchemaOf` | JSONSchema/generator.py:44-65 | The schema object is a JSON object whose keys are the five fixed ones, followed by "description" exactly when the class has `_schema_description`. |
| `JsonSchema.SchemaDescription` | JSONSchema/generator.py:64-65 | The schema has "description" exactly when the class has `_schema_description`, bound to that attribute's value. |
| `JsonSchema.SchemaTopLevel` | JSONSchema/generator.py:45-65 | The schema's keys are "id", "$schema", "type", "properties" and "required", in that order, then "description" exactly when `_schema_description` exists. "id" is the class name plus "_schema" and "$schema" is draft-04. "type" is "object". "required" is `_required`, or `[]` when that attribute is absent. |
| `JsonSchema.SchemaAttributeSharesDescription` | JSONSchema/generator.py:58-65 | An annotated attribute named "schema" takes its description from `_schema_description`, the same attribute that describes the whole schema. |
| `JsonSchema.Generate` | JSONSchema/generator.py:44-65 | The loop over the annotations builds exactly the schema object `SchemaOf` describes. Its shape is given by `SchemaTopLevel` and `PropertiesOnePerAnnotation`. |

## Left out

- The HTTP transport (`requests.Session`, `raise_for_status`, the printed error in `get_response`) is replaced by the `Web` oracle, so cookie persistence across requests is not modelled.
- HTML parsing and `prettify` are replaced by `Page`: content taken as already prettified, plus the anchors' `href` values.
- The pandas DataFrame and the CSV write of `save_memory` are left out: memory is a sequence of rows, and `SaveMemory` stops after the flush, so its file name argument is dropped.
- The `talkative` progress printing is left out because it is logging only.
- `spidy_stroll`, the `__main__` blocks and `Spider/data_converter.py` are not part of this model: they are demo drivers and pandas/database glue with live I/O.
- Crawler.Spider.SpidyTrip: `depth` is a natural number. In Python a negative depth never meets `depth == 0`, so the crawl is bounded only by the link graph; that case is not modelled.
- Crawler.Spider.SpidyTrip and Crawler.Spider.constructor: the default arguments (`depth=1`, `base_url=None`, `talkative=False`) are not modelled; callers pass `1` and `None` explicitly, and `talkative` only controls logging.
- Crawler.Spider.constructor: the threshold is fixed at 10 when the spider is created. Python lets callers reassign `accumulator_max_size` later. The specification functions take any threshold (`Crawl.capacity`).
- The `Web` oracle is a fixed map, so every fetch of an address gives the same page, or fails every time. In the source a second `get_response` of the same address can fail or return other content. `Crawler.Captured`, `VisitKeepsCaptured` and the claim that an address whose fetch fails is never saved hold under this assumption only.
- Uniqueness of addresses in memory is not claimed, because the code does not guarantee it.
- `json.dumps` text formatting is left out: `Generate` returns the schema as a structured `Json` value.
- Python reflection (`isclass`, `get_annotations`, `hasattr`, `getattr`, `get_origin`, `get_args`, `isinstance`) becomes explicit input: `PyValue`, `PyType` and `PyClass`.
- A bare `typing.List` or `typing.Dict` is not representable as a `PyType`. In the source they raise `IndexError` and `ValueError` when their arguments are read. Extra arguments to `list[...]` are not representable either.
- JSON numbers are integers only. Attribute values that `json.dumps` cannot serialise are not modelled.
