# elasticmanager in Dafny

A model of the core of `elasticmanager`, a Django add-on that mirrors model
records into Elasticsearch through `elasticsearch_dsl`. Three pieces of its own
logic are modelled and proved:

- the `ElasticManager` query facade (`elastic` on every model): a `search` slot
  that is unset or holds the clauses accumulated so far, a `results` slot that
  holds the paginator of the last `execute`, the clamping page policy, item and
  slice access, and the default-resolution helpers `get_index`, `get_type` and
  `setup` (`manager.dfy`, with the pagination and slicing rules in `search.dfy`);
- `ElasticModel.index`, which copies a record into its search document property
  by property and saves after each one, and `ElasticModel.save`, which retries
  once after opening a closed index (`indexing.dfy`);
- the management-command helpers: the yes/no prompt `_yesno` (`prompt.dfy`) and
  the `rebuild_indexing` command's model selection and indexing order
  (`rebuild.dfy`).

`text.dfy` holds the Python string operations the core relies on (`str.split`
with a one-character separator, `str.lower` on ASCII), `wrappers.dfy` the
`Option` and `Result` types.

Foreign code is abstracted:

- The search backend is the manager's `engine`, a function from the list of
  clauses to the ordered hits.
- Django's page validation is the manager's `classify`, a function from hit
  count, page size and request to a verdict (valid page, `PageNotAnInteger`,
  `EmptyPage`). It is bound only by `ClassifierContract`: every page number
  from 1 to `num_pages` is accepted as itself, and nothing outside that range is
  accepted. `DjangoClassify` is one such validation, following Django's defaults.
- The Elasticsearch index seen by `index` and `save` is a `DocStore`: a map from
  document id to fields, an open flag, and a log of every save in order.
  Reading or writing a closed index raises `AuthorizationException`.
- The terminal of `_yesno` is a finite list of input lines plus the list of
  lines written. Reading past the last input line is `EOFError`.
- The application registry is the list of model classes in registry order.
  Whether the Elasticsearch index exists is a parameter of `run_indexing`.

Four behaviours of the code are easy to miss:

- `page(0)` gives the LAST page. Django raises `EmptyPage` for page numbers
  below 1, and `page` answers `EmptyPage` with `num_pages`
  (`elasticmanager/models.py:131-132`).
- `rebuild_indexing` has no error handling around a model's indexing
  (`elasticmanager/management/commands/rebuild_indexing.py:49-53`). The first
  exception ends the run, and the models after it are not indexed.
- The type `get_type` derives is the second `_`-separated piece of `db_table`
  (`elasticmanager/models.py:81`), not the table name: `my_app_article` gives
  `app`.
- When `save` retries, it opens the index that `get_index()` names
  (`elasticmanager/models.py:271-272`), which need not be the doc type's
  index. The retry then fails again with `AuthorizationException`.

## Model

| member | source | states |
|---|---|---|
| Text.Split | elasticmanager/models.py:81 | `str.split` with one separator: at least one piece, and no piece contains the separator |
| Text.JoinSplit | elasticmanager/models.py:81 | joining the pieces of a split with the separator gives the original string back |
| Text.SplitJoin | elasticmanager/models.py:81 | splitting a join of separator-free pieces gives the pieces back |
| Text.SplitHasSecond | elasticmanager/models.py:81 | a split has a second piece exactly when the separator occurs in the string |
| Text.SplitSecond | elasticmanager/models.py:81 | with a separator present, the string is the first piece, the separator, the second piece, then the rest after another separator |
| Text.LowerChar | elasticmanager/management/commands/__init__.py:39 | lower-casing a character leaves no upper-case ASCII letter, and keeps letters letters |
| Text.Lower | elasticmanager/management/commands/__init__.py:39 | `str.lower` keeps the length and lower-cases each character in place |
| Text.LowerIdempotent | elasticmanager/management/commands/__init__.py:39 | lower-casing twice is lower-casing once |
| Search.NumPages | elasticmanager/models.py:120 | a paginator always has at least one page, because an empty first page is allowed |
| Search.NumPagesBounds | elasticmanager/models.py:120 | `num_pages` pages of `per_page` hits hold every hit, and one page fewer does not |
| Search.PageItems | elasticmanager/models.py:128 | page `k` holds at most `per_page` hits; which ones is stated by `PageItemsIsSlice` |
| Search.PageItemsIsSlice | elasticmanager/models.py:128 | page `k` is the slice from `(k-1)*per_page` to `k*per_page`, cut at the hit count |
| Search.PagesUpToIsPrefix | elasticmanager/models.py:128 | pages 1 to `k` laid end to end are the first `k*per_page` hits |
| Search.PagesCoverHits | elasticmanager/models.py:120-128 | reading every page in order gives every hit exactly once, in order |
| Search.PageSizes | elasticmanager/models.py:120-128 | every page before the last is full, the last holds the remainder, and no page is empty when there are hits |
| Search.ResolvePage | elasticmanager/models.py:125-133 | an accepted number gives that page, `PageNotAnInteger` gives page 1, `EmptyPage` gives page `num_pages`, and the items are that page's hits |
| Search.ResolvePageInRange | elasticmanager/models.py:125-133 | under any validation meeting the contract, every request resolves to a page between 1 and `num_pages` |
| Search.DecimalValue | elasticmanager/models.py:128 | a page number given as text is read exactly when it is a non-empty string of decimal digits |
| Search.DecimalValuePositional | elasticmanager/models.py:128 | a digit string reads as its positional decimal value, leading zeros included |
| Search.DjangoClassify | elasticmanager/models.py:128-132 | a missing page is not an integer; a number is accepted exactly in 1..`num_pages` and otherwise an empty page; text is not an integer exactly when it is not a digit string |
| Search.DjangoClassifyMeetsContract | elasticmanager/models.py:128-132 | Django's default validation accepts every page number in range as itself and nothing else |
| Search.SevenHitsThreePerPage | elasticmanager/models.py:117-133 | seven hits three to a page: pages of 3, 3 and 1; page 99 and page 0 give page 3; no page gives the first three hits; page `"2"` gives hits 4 to 6 |
| Search.Window | elasticmanager/models.py:51 | a sliced search returns the `size` hits from offset `from` when they exist, the hits from `from` to the end when the window runs past it, and none when `from` is past the end |
| Search.SliceHits | elasticmanager/models.py:48-51 | `s[start:stop]` fails exactly on a negative bound; otherwise it is the list slice `hits[start:stop]`, consecutive hits from `start` up to `stop` or the end, with a missing start read as 0 and a missing stop as ten hits |
| Search.ItemAt | elasticmanager/models.py:52-56 | `self[k]` is the hit at `k`, `IndexError` past the end, and the client's refusal for negative `k` |
| Manager.GetIndex | elasticmanager/models.py:72-76 | the model's `es_index` when set, else the default index |
| Manager.GetType | elasticmanager/models.py:78-82 | the model's `es_type` when set; otherwise fails exactly when `db_table` has no `_`, and a derived type contains no `_` |
| Manager.GetTypeIsSecondPiece | elasticmanager/models.py:81 | without `es_type`, the type is the piece of `db_table` between its first `_` and the next `_` or the end |
| Manager.GetTypeExamples | elasticmanager/models.py:78-82 | `blog_article` gives `article`, `my_app_article` gives `app`, `article` fails, and `es_type` overrides the table |
| Manager.ElasticManager.constructor | elasticmanager/models.py:40-42 | a new manager has page size 3, no search, no results and no resolved attributes |
| Manager.ElasticManager.Default | elasticmanager/models.py:195-197 | the `get_` value of an attribute: the index and doc type always resolve; the type fails exactly when there is no `es_type` and `db_table` has no `_` |
| Manager.ElasticManager.Setup | elasticmanager/models.py:191-197 | set attributes are kept; each unset one gets its `get_` value; a `get_type` failure stops it after `index` and is the result |
| Manager.ElasticManager.GetSearch | elasticmanager/models.py:84-89 | returns the clauses in the slot, installing a fresh search with none when the slot is unset |
| Manager.ElasticManager.SetSearch | elasticmanager/models.py:91-92 | the slot becomes the given value |
| Manager.ElasticManager.Clear | elasticmanager/models.py:94-95 | the slot becomes unset |
| Manager.ElasticManager.All | elasticmanager/models.py:98-103 | the slot holds exactly one `match_all` filter, whatever it held before, and the manager itself is returned |
| Manager.ElasticManager.Filter | elasticmanager/models.py:105-109 | one `term` filter is appended after the earlier clauses, and the manager itself is returned |
| Manager.ElasticManager.Query | elasticmanager/models.py:111-115 | one query clause is appended after the earlier clauses, and the manager itself is returned |
| Manager.ElasticManager.Page | elasticmanager/models.py:125-133 | with a stored paginator, always a page between 1 and `num_pages`, chosen by the verdict as in `ResolvePage`; without one, reading `results` fails |
| Manager.ElasticManager.Execute | elasticmanager/models.py:117-123 | stores a paginator over the current search's hits, with the class page size 3 (line 42) unless given, and returns the requested page of it |
| Manager.ElasticManager.Count | elasticmanager/models.py:140-143 | executes with the defaults only when no paginator was ever stored; otherwise returns the stored count and changes nothing |
| Manager.ElasticManager.GetItem | elasticmanager/models.py:48-56 | returns `ItemAt` of the current search's hits |
| Manager.ElasticManager.GetSlice | elasticmanager/models.py:48-51 | returns `SliceHits` of the current search's hits |
| Manager.ElasticManager.First | elasticmanager/models.py:149-150 | the first hit, or `IndexError` when there is none |
| Manager.ElasticManager.Last | elasticmanager/models.py:152-154 | the hit at the stored count minus one; with no stored paginator the last hit, or the negative-index refusal when there is none; `results` stays as it was, or becomes the default paginator over the current search when it was unset |
| Manager.GetSearchAfterClear | elasticmanager/models.py:84-95 | after `clear`, `get_search` yields no clauses, and a second call yields the same |
| Manager.AllThenFilterThenQuery | elasticmanager/models.py:98-115 | `all` forgets earlier clauses; `filter` then `query` leave exactly `match_all`, the filter and the query, in order, and nothing else changes |
| Indexing.Flattened | elasticmanager/models.py:243-249 | succeeds exactly when every item has the child attribute; then one `{child: item.child}` map per item, in order; else `AttributeError` on the child |
| Indexing.FieldValue | elasticmanager/models.py:241-253 | succeeds exactly when the attribute exists and is a collection whose items all have the first sub-property (nested) or is not a related manager (plain); a nested value is the flattened collection, a callable gives its result, a plain value itself; a missing attribute and a nested property with no sub-property fail with their own errors |
| Indexing.FlattenNested | elasticmanager/models.py:244-248 | the `plist` loop computes `Flattened` |
| Indexing.ComputeField | elasticmanager/models.py:242-253 | the body of the property loop computes `FieldValue` |
| Indexing.Build | elasticmanager/models.py:241-255 | one save per property on success, never more saves than properties, and no index or setup error from the walk itself |
| Indexing.BuildSaves | elasticmanager/models.py:241-255 | save `i` is the starting document with the writes of properties 0..`i`; the walk succeeds exactly when every property's value does, and otherwise fails with the first failing property's error, right after the saves of the properties before it |
| Indexing.LastSaveIsResult | elasticmanager/models.py:254-255 | on success the document returned is the one saved last |
| Indexing.BuildIsOverlay | elasticmanager/models.py:241-255 | the walk writes the same fields on any starting document, later properties winning, and succeeds or fails regardless of it |
| Indexing.KeepsUnmappedFields | elasticmanager/models.py:241-255 | fields of the stored document that no property names are kept |
| Indexing.BuildIdempotent | elasticmanager/models.py:229-255 | indexing an unchanged record again leaves its document as it was |
| Indexing.ArticleScenario | elasticmanager/models.py:241-255 | a title and two related tags give one document with the title and a two-item nested list, saved twice, and a second run changes nothing |
| Indexing.DocStore.constructor | elasticmanager/models.py:235-237 | a store for the named index with the given documents and open flag and no saves yet |
| Indexing.DocStore.Get | elasticmanager/models.py:234-237 | a closed index refuses; otherwise the stored document, or none when it is not found |
| Indexing.DocStore.Save | elasticmanager/models.py:254 | on an open index the document is stored under its id and the save logged; a closed index refuses and nothing changes |
| Indexing.DocStore.Open | elasticmanager/models.py:271-272 | the index is open afterwards |
| Indexing.SavesOf | elasticmanager/models.py:254 | one log entry per save |
| Indexing.StartDoc | elasticmanager/models.py:234-237 | the stored document for the record's id, or a new one with no fields when it is not found |
| Indexing.WriteProperties | elasticmanager/models.py:241-255 | the result is `Build` from the starting document; the log gains one entry per save, in order, and the store holds the last saved document |
| Indexing.Index | elasticmanager/models.py:229-257 | runs `setup` only when `doc_type` is unset, keeping set attributes and giving unset ones their `get_` value (only `index` when `get_type` fails); a closed index fails before anything is written; an unknown mapping name writes nothing and returns none; otherwise the document starts from the stored one or an empty one with the record's id and is built and saved as in `Build` |
| Indexing.Save | elasticmanager/models.py:261-273 | on `AuthorizationException` the index `get_index()` names is opened and indexing runs exactly once more; the failure comes back exactly when the index was closed and `get_index()` names another index; otherwise the saves, the stored document and the result are those of one `Build`, and `setup` changes the attributes as in `index` |
| Prompt.Suffix | elasticmanager/management/commands/__init__.py:28-35 | the suffix exists exactly for no default, `yes` and `no`, with the default's letter in capitals; any other default is a `ValueError` |
| Prompt.Answer | elasticmanager/management/commands/__init__.py:39-44 | a line is accepted exactly when its lower-cased form is in the table or it is empty with a default; an empty line then means the default |
| Prompt.AnswerTable | elasticmanager/management/commands/__init__.py:26-44 | `y`, `ye`, `yes` in any case mean yes; `n`, `no` mean no; an empty line means the default if there is one; nothing else is accepted |
| Prompt.FirstAccepted | elasticmanager/management/commands/__init__.py:37-46 | a found position is inside the input and its line is accepted |
| Prompt.FirstAcceptedSpec | elasticmanager/management/commands/__init__.py:37-46 | the found line is the first accepted one, and none is found exactly when no line is accepted |
| Prompt.Rejections | elasticmanager/management/commands/__init__.py:38-46 | each rejected line costs one prompt and one help line |
| Prompt.YesNo | elasticmanager/management/commands/__init__.py:25-46 | a bad default fails before anything is written or read; otherwise the first accepted line decides, after one prompt and one help line per earlier line; with no accepted line, input runs out after one more prompt |
| Prompt.RepromptExample | elasticmanager/management/commands/__init__.py:37-46 | with default `yes`, `maybe` is rejected and `NO` then answers no; an empty line means yes, and without a default it is rejected |
| Rebuild.Distinct | elasticmanager/management/commands/rebuild_indexing.py:23 | the names without repeats: the same names, each once |
| Rebuild.LastNamed | elasticmanager/management/commands/rebuild_indexing.py:23 | the last class with a name: none exactly when no class has it |
| Rebuild.InsertLookup | elasticmanager/management/commands/rebuild_indexing.py:23 | after storing a class under a name, that name gives it and every other name is unchanged |
| Rebuild.InsertKeys | elasticmanager/management/commands/rebuild_indexing.py:23 | storing under an existing name keeps the key order; a new name goes last |
| Rebuild.RegistryOf | elasticmanager/management/commands/rebuild_indexing.py:23 | the registry is empty exactly when no class is registered; what it holds is stated by `RegistryLookup`, `RegistryKeys` and `RegistryValues` |
| Rebuild.RegistryLookup | elasticmanager/management/commands/rebuild_indexing.py:23 | the registry holds, under each name, the last class with that name |
| Rebuild.RegistryKeys | elasticmanager/management/commands/rebuild_indexing.py:23 | the registry lists each class name once, at its first occurrence |
| Rebuild.RegistryValues | elasticmanager/management/commands/rebuild_indexing.py:23-33 | every class gathered without names is the last class registered under its name |
| Rebuild.Gathered | elasticmanager/management/commands/rebuild_indexing.py:28-33 | every candidate is a registered class; with no names passed, every registry entry is a candidate |
| Rebuild.Picked | elasticmanager/management/commands/rebuild_indexing.py:28-31 | never more classes than names, and only registered classes |
| Rebuild.PickedAppend | elasticmanager/management/commands/rebuild_indexing.py:29-31 | picking is done name by name, in the order given |
| Rebuild.PickedOne | elasticmanager/management/commands/rebuild_indexing.py:30-31 | a known name picks its class, an unknown one nothing |
| Rebuild.ElasticPairs | elasticmanager/management/commands/rebuild_indexing.py:35-38 | never more pairs than candidates |
| Rebuild.ElasticPairsAppend | elasticmanager/management/commands/rebuild_indexing.py:35-38 | the filter runs class by class: the pairs of two lists laid end to end are the pairs of each, in order |
| Rebuild.ElasticPairsOne | elasticmanager/management/commands/rebuild_indexing.py:36-38 | one class gives its `(module, name)` pair when it is elastic, and nothing otherwise |
| Rebuild.ElasticPairsSpec | elasticmanager/management/commands/rebuild_indexing.py:35-38 | every elastic candidate gives its `(module, name)` pair, and every pair comes from an elastic candidate |
| Rebuild.PickNames | elasticmanager/management/commands/rebuild_indexing.py:28-31 | the loop over the passed names computes `Picked` |
| Rebuild.KeepElastic | elasticmanager/management/commands/rebuild_indexing.py:35-38 | the loop filling `self.models` computes `ElasticPairs` |
| Rebuild.Preamble | elasticmanager/management/commands/rebuild_indexing.py:44-47 | the index is created exactly when it does not exist, then opened, and no model is indexed before that |
| Rebuild.ModelRuns | elasticmanager/management/commands/rebuild_indexing.py:49-53 | never more models indexed than pairs |
| Rebuild.ModelRunsSpec | elasticmanager/management/commands/rebuild_indexing.py:49-53 | models are indexed in order under the part before the dot, up to the first module path that is not two dotted parts, where the run fails |
| Rebuild.Command.constructor | elasticmanager/management/commands/rebuild_indexing.py:8 | a command over the registered classes with no models selected |
| Rebuild.Command.GatherModels | elasticmanager/management/commands/rebuild_indexing.py:22-40 | the selected pairs are the elastic classes among the named ones, or among all registered ones when no names are passed |
| Rebuild.Command.RunIndexing | elasticmanager/management/commands/rebuild_indexing.py:43-54 | the index is created if missing and then opened before any model, then the models are indexed as in `ModelRuns` |
| Rebuild.LabelIsFirstPart | elasticmanager/management/commands/rebuild_indexing.py:50-51 | a module path `app.rest` indexes the model under the label `app` |
| Rebuild.UnpackExample | elasticmanager/management/commands/rebuild_indexing.py:50 | a module path with three parts stops the run before any model |
| Rebuild.CollapseExample | elasticmanager/management/commands/rebuild_indexing.py:23-33 | two classes named `Article` collapse to the later one at the first one's place; naming it twice picks it twice; unknown names are skipped |

## Left out

- `__iter__` and `scan()`: streaming every hit is a foreign call into the search client.
- `get_doc_type`: a dynamic import of the app's `doctypes` module. The manager takes the resolved doc type as the constant `docType`.
- `get`: a direct lookup by id in the search client.
- The `*_from_db` methods: they only delegate to Django's `Manager`.
- `ElasticManager.run_mapping` and `ElasticManager.run_indexing`: orchestration of foreign index calls. `rebuild_indexing` calls the latter, and the model records that call as an `IndexModel` event.
- The `options.DEFAULT_NAMES` patch and the unused `field_map`.
- `remove_index.py`: a confirmation prompt followed by an index delete. The prompt is modelled as `Prompt.YesNo`. The delete is I/O.
- The output helpers `_write`, `_heading`, `_label` and the rest, `add_arguments`, `handle`, and the progress `print` in `index`: terminal I/O and argument parsing. The lines `_yesno` writes are kept.
- `elasticmanager/__init__.py`: creates the connection at import time, which is network I/O.
- `setup.py`: packaging.
- `super().save()` in `ElasticModel.save`: the database write is not modelled, only the indexing after it.
- Search.DjangoClassify: reads a text page number only as plain decimal digits. Django's `int()` also takes signs, spaces and underscores. The manager only relies on `ClassifierContract`.
- Manager.ElasticManager.Execute: a `page_size` of zero or less is not modelled (`PageSize` is at least 1). Django refuses it when the page is built.
- Text.Lower: lower-cases ASCII letters only. Python's `str.lower` also folds non-ASCII letters.
- Indexing.FieldValue: a callable attribute is modelled by its result. Calling it is assumed to be deterministic and free of side effects.
- Indexing.FieldValue: a related manager under a plain property is callable, so `value()` at line 252 is called on it and raises before anything is set or saved (Django's related managers require a `manager` argument). The model gives `ManagerCall` for that call, without distinguishing `TypeError` from `KeyError`.
- Indexing.Save: `Index.open()` is assumed to succeed on the index it names. A failure of `open()` itself (a missing index, a transport error) is not modelled, and an index other than the doc type's is not held by the model, so opening it has no visible effect.
- Rebuild.Command.RunIndexing: `apps.get_model(label, name)` is assumed to find the class. A `LookupError` there is not modelled.
- Rebuild.Command.GatherModels: `is_elastic` is modelled as a boolean. Any truthy value counts as true.
