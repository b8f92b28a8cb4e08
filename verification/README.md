# jellyroll in Dafny

jellyroll gathers a person's activity from many services into one timeline.
The services are Flickr photos, del.icio.us bookmarks, Google search history,
last.fm tracks, Twitter statuses, YouTube favourites and git or Subversion
commits. This project models the core of that program as pure Dafny
functions and proves properties of them.

The model has four layers.

- **Timeline** (`Timeline`, `Records`). Every followed object has one `Item`,
  keyed on its content type and object id. The Item carries a timestamp, a
  provenance (the provider's name and a source id), tags, a url and a display
  string. `create_or_update` writes the Item over any earlier one. `find`
  looks an Item up by its provenance. `get_last_update_of_model` is the
  checkpoint of a model. Domain rows are kept in insertion order with unique
  keys. The `post_save` signal is an explicit projection after a save.
- **Providers** (`Pipeline`, `Structured`, `Orchestrator`). A provider
  registers its models with priorities. `update_main` collects candidate
  records per model, and `handle_main` pushes each record through identity
  resolution (`handle_default`), default filling (`pre_handle_item`) and
  projection (`handle_item`). A failure is confined to its record, and one
  provider's failure is confined to that provider within `jellyroll.update`.
  Each record's default phase is all-or-nothing, like `commit_on_success`.
- **Provider rules** (`CodeProviders`, `Flickr`, `Delicious`, `GSearch`,
  `Lastfm`, `Twitter`, `Youtube`). These cover the source-id derivations,
  checkpoint filters, pagination stop rules, author filters, tag extraction
  and the hooks that link rows together. Feeds are abstract sequences of
  entries.
- **Model derivations** (`Photos`, `Code`, `Videos`, `Search`,
  `TemplateTags`). These are the photo rights decisions, licence codes and
  image URLs; commit revisions and changeset URLs; video document ids and
  embed URLs; search URLs; and the token checks and rendering of the two
  template tags.

Supporting modules:

- `Wrappers` holds `Option` and `Result`.
- `Failures` holds the Python exceptions that the code raises or lets
  through.
- `Values` holds the record values.
- `Strings`, `Urls` and `Patterns` give the behaviour of `str.split`,
  `strip`, `%`-formatting, `urlparse` and the regular expressions the core
  uses.
- `Sorting` is a stable insertion sort.
- `Scans` holds the generic walks over feeds.
- `Tables` holds insertion-ordered association lists.
- `Externals` is the record of foreign pure functions the model takes as
  parameters: md5, slugify, `quote_plus`, `urlquote`, JSON, `str` of a
  timestamp, word truncation and the Twitter URL pattern.

Timestamps are integers. The current time, the local epoch and every fetched
payload are parameters.

Where the code and its documentation disagree, the model follows the code.
Three cases:

- Only the default phase of a record runs inside the transaction;
  `pre_handle_item` and `handle_item` are outside it.
- `find` does not look at the content type.
- The base `enabled()` returns None, so a provider that does not override it
  is never active.

## Model

| member | source | states |
|---|---|---|
| Timeline.Store | jellyroll/backends/item/managers.py:59-78 | the object's Item becomes the given one, in place when an Item with its (content type, object id) key was stored and appended otherwise; every other Item is kept, nothing else is added, and keys stay unique |
| Timeline.StoreIdempotent | jellyroll/backends/item/managers.py:59-78 | storing the same Item a second time leaves the store exactly as the first time did |
| Timeline.Find | jellyroll/backends/item/managers.py:83-91 | `find` returns the one Item whose source and source id match, every matching Item being that one; it raises DoesNotExist exactly when none matches and MultipleObjectsReturned otherwise; the content type is not consulted |
| Timeline.FindOnly | jellyroll/backends/item/managers.py:88-91 | with unique keys, an Item that alone carries its provenance is what `find` returns |
| Timeline.FindAmbiguous | jellyroll/backends/item/managers.py:91 | two different stored Items with the same provenance make `find` raise MultipleObjectsReturned |
| Timeline.ForModel | jellyroll/backends/item/managers.py:101-106 | `get_for_model` keeps exactly the Items of that content type |
| Timeline.LastUpdate | jellyroll/backends/item/managers.py:108-120 | the checkpoint is the epoch when no Item of the model passes the filter, is at least every passing Item's timestamp, and is the timestamp of some passing Item when there is one |
| Timeline.StoreAdvancesCheckpoint | jellyroll/backends/item/managers.py:114-118 | storing an Item no earlier than every stored Item of its type makes the type's checkpoint that Item's timestamp |
| Timeline.Compare | jellyroll/core/models.py:48-49 | Items compare equal exactly when their timestamps are equal, and below exactly when their timestamp is earlier |
| Timeline.ListingOrdered | jellyroll/core/models.py:40-41 | the default listing is in descending timestamp order and is a permutation of the stored Items |
| Timeline.ListingIsSorted | jellyroll/core/tests/test_items.py:129-131 | sorting the listing in reverse timestamp order again returns the listing itself |
| Timeline.ItemStringParts | jellyroll/core/models.py:45-46 | the string form is the class name, then ": ", then the stored display string, and both parts can be read back |
| Records.Fetch | jellyroll/core/models.py:53 | a lookup by class and key returns a stored row with that key, and None only when no stored row has it |
| Records.NextAutoId | jellyroll/backends/item/managers.py:33 | the automatic key of a new row is above every numeric key stored for the class |
| Records.AutoIdFresh | jellyroll/backends/item/managers.py:33 | the automatic key differs from the key of every stored row of the class |
| Records.SaveRow | jellyroll/backends/item/managers.py:26-33 | saving keeps class and fields, keeps a given key and otherwise assigns a fresh one, makes the row fetchable under that key, keeps every other row and keeps row keys unique |
| Records.FetchStored | jellyroll/core/models.py:53 | with unique row keys, fetching a stored row's class and key returns that row |
| Records.ResolveTime | jellyroll/backends/item/managers.py:45-46 | a missing timestamp becomes the current time and a date is kept; anything else fails |
| Records.Projection | jellyroll/backends/item/managers.py:43-78 | the Item is keyed on (class, key), carries the given provenance and the object's current display string, takes the instance's own timestamp over the argument, falls back from empty tags to the TagField and from a falsy url to the url attribute, and keeps truthy arguments |
| Records.Project | jellyroll/backends/item/managers.py:37-80 | a class that is not jellyrollable writes no Item and changes nothing; otherwise the Item is stored over any earlier one for the object and only the Items change |
| Records.SaveFirst | jellyroll/backends/item/managers.py:26-35 | an unsaved instance is saved under a fresh key and its class ends up connected; an instance with a key is left alone |
| Records.CreateOrUpdate | jellyroll/backends/item/managers.py:17-80 | keeps row and Item keys unique, writes an Item exactly when the class is jellyrollable, and otherwise leaves the Items alone |
| Records.CreateOrUpdateWrites | jellyroll/backends/item/managers.py:58-80 | after the call the object has exactly one Item, which carries the provenance and the truthy url and tags passed in; every other Item is kept and an instance saved here is stored and connected |
| Records.CreateOrUpdateIdempotent | jellyroll/backends/item/managers.py:59-78 | calling `create_or_update` again for the now-saved instance with the same arguments changes nothing |
| Records.ProjectIdempotent | jellyroll/backends/item/managers.py:59-78 | projecting the same saved instance twice is projecting it once |
| Records.SaveWithSignal | jellyroll/backends/item/managers.py:99 | a save keeps rows unique and stores the row; a class that is not connected keeps its Items, a connected one is projected by the signal |
| Records.SignalResetsProvenance | jellyroll/backends/item/managers.py:17-18 | a save of a connected class leaves its object with one Item of provenance "INTERACTIVE" and source id "" |
| Records.Follow | jellyroll/backends/item/managers.py:93-99 | `follow_model` maps the lower-case class name to the class and connects the class, changing no row or Item |
| Records.FollowAllByName | jellyroll/core/tests/test_items.py:133-137 | after following classes with distinct lower-case names, each name maps to its class and every class is connected |
| Records.FollowAllKeeps | jellyroll/backends/item/managers.py:98 | following other classes keeps an earlier name entry and never disconnects |
| Records.RowsWhere | jellyroll/backends/photo/templatetags/jellyroll_photo_tags.py:17 | a filter on one field keeps exactly the stored rows of the class whose field holds the value |
| Records.GetWhere | jellyroll/contrib/code/templatetags/jellyroll_code_tags.py:19 | a get succeeds exactly when one stored row matches and returns it; it raises DoesNotExist exactly when none matches and MultipleObjectsReturned otherwise |
| Pipeline.RegisterModel | jellyroll/providers/__init__.py:148-166 | registration raises AttributeError exactly when the provider lacks `update_<model>`; otherwise only the registry changes, the lower-case model name maps to the class, its priority and whether `handle_<model>` exists, and every other model's registration is kept |
| Pipeline.QueueOrdered | jellyroll/providers/__init__.py:195-197 | both phases visit every registered model exactly once (the queue is a permutation of the registry), in ascending priority order |
| Pipeline.RegisterTwoQueue | jellyroll/providers/__init__.py:148-166 | two distinct models registered in turn at non-decreasing priorities both register, and are queued first and second with their classes and priorities |
| Pipeline.RegisterOne | jellyroll/providers/__init__.py:148-166 | a provider that registers one model queues exactly that model, with its class, priority and handler flag, and is otherwise unchanged |
| Pipeline.RegisterTwo | jellyroll/providers/__init__.py:148-166 | a provider that registers two models queues exactly those two, in priority order, and is otherwise unchanged |
| Pipeline.UpdateMain | jellyroll/providers/__init__.py:186-201 | when the fetch phase succeeds, every queued model has the records its updater returned |
| Pipeline.Fetch | jellyroll/providers/__init__.py:199-201 | the fetch fails exactly when some queued model's updater raises, and otherwise holds each model's records |
| Pipeline.Overlay | jellyroll/providers/__init__.py:294-295 | the instance keeps its class and key, every default field takes the record's value and every other field is kept |
| Pipeline.HandleDefault | jellyroll/providers/__init__.py:258-297 | a resolved instance carries every default field from the record, and a missing default field raises KeyError. With the primary key in the record: a stored row is returned overlaid with the defaults and not created; otherwise a row is saved under that key carrying the defaults and returned as created. Without it: an Item `find` returns whose object is stored gives that object overlaid and not created; DoesNotExist gives a fresh unsaved instance carrying the defaults, created; None is returned only for a provider without `source_id`. Only the keyed path can write |
| Pipeline.FillDefaults | jellyroll/providers/__init__.py:308-313 | the record gains timestamp, url and tags when missing (None, None and ""), and every key it had keeps its value |
| Pipeline.PreHandleItem | jellyroll/providers/__init__.py:299-318 | for an instance that was not created, only the defaults are filled and nothing else happens |
| Pipeline.HandleItem | jellyroll/providers/__init__.py:336-357 | an Item already stored under the record's source id is returned unchanged with the database untouched; a `source_id` failure propagates; the database invariants are kept |
| Pipeline.HandleRecord | jellyroll/providers/__init__.py:215-237 | a failure of the transaction (handler or default, and `post_handle_default`) rolls the database back to what it was before the record |
| Pipeline.Batch | jellyroll/providers/__init__.py:228-237 | every record is handled and its exception logged, except that an interruption ends the batch and is the last outcome |
| Pipeline.BatchAppend | jellyroll/providers/__init__.py:228-237 | handling `a + b` is handling `a` and then `b` from the database `a` left, when nothing in `a` interrupts |
| Pipeline.BatchSplits | jellyroll/providers/__init__.py:228-237 | a provider's batch split anywhere is handled as its two parts one after the other: an ordinary failure in the first part does not stop the second |
| Pipeline.HandleQueue | jellyroll/providers/__init__.py:213-237 | with records for every queued model, the handling phase ends normally or with an interruption; a model the updaters left without records raises KeyError before anything is handled |
| Pipeline.RunUpdate | jellyroll/providers/__init__.py:178-184 | an exception of the fetch phase propagates with the database untouched; otherwise only an interruption can escape the handling phase |
| Pipeline.RecordKeepsValid | jellyroll/providers/__init__.py:215-237 | handling one record keeps row keys and Item keys unique, for any provider whose own hooks do |
| Pipeline.DefaultPhaseKeepsValid | jellyroll/providers/__init__.py:215-226 | the transaction keeps row keys and Item keys unique |
| Pipeline.BatchKeepsValid | jellyroll/providers/__init__.py:228-237 | handling a whole batch keeps row keys and Item keys unique |
| Pipeline.HandleItemThenFound | jellyroll/providers/__init__.py:346-357 | after `handle_item` projects a record under a new source id, `find` returns exactly that Item and handling the record again returns it with nothing changed |
| Pipeline.SeenRecordUnchanged | jellyroll/providers/__init__.py:281-295 | a record whose Item and object are stored changes nothing and raises nothing; its new field values stay on the instance in memory |
| Pipeline.NewRecordThenSeen | jellyroll/providers/__init__.py:258-357 | a record handled once without failure, handled again, changes nothing, so repeated runs do not duplicate timeline entries: for a keyed record always, for a record resolved by `find` when it was new and its source id is stable |
| Pipeline.KeyedRecordThenSeen | jellyroll/providers/__init__.py:275-279 | a record carrying its primary key (a Flickr photo or set), once handled without failure, is handled again without any change, whether or not its row and Item existed before |
| Pipeline.KeyedFirstPhase | jellyroll/providers/__init__.py:275-279 | after the default phase of a keyed record the row stored under its key is the resolved instance before the overlay, and the invariants hold |
| Pipeline.HandleItemAgain | jellyroll/providers/__init__.py:346-357 | `handle_item` never touches rows, and running it again on what it left changes nothing |
| Pipeline.KeyedDefaultPhaseAgain | jellyroll/providers/__init__.py:215-225 | a keyed record whose row is stored passes the default phase with nothing changed and nothing created |
| Structured.RegisterDataUrl | jellyroll/providers/__init__.py:444-455 | without an alias the model's entry becomes the one endpoint; with one the endpoint is stored under the alias, creating the alias table on first use and keeping the other aliases; a model holding a single endpoint raises TypeError when given an alias; no other model's entry changes |
| Structured.Process | jellyroll/providers/__init__.py:476-478 | an unknown format raises KeyError before anything is fetched; a known one is fetched and iterated |
| Structured.ProcessAll | jellyroll/providers/__init__.py:474-480 | every aliased endpoint is processed under its alias, in order; the whole fails exactly when one endpoint fails, with that endpoint's exception |
| Structured.GetUpdateDataFor | jellyroll/providers/__init__.py:457-463 | the corrected `get_update_data`: a model without interface or data URL gets None, and one with a data URL gets exactly that URL's data |
| Structured.SharedSourceAgrees | jellyroll/providers/__init__.py:472-485 | when every registered model shares one data source, the code as written and the corrected lookup give the same data |
| Structured.SecondModelGetsFirstData | jellyroll/providers/__init__.py:472-485 | with two models registered under different URLs, the code as written gives the second model the first model's data |
| Structured.GDataUpdateData | jellyroll/providers/__init__.py:516-519 | a GData model's data is its service client after the login; a model with no client raises KeyError |
| Orchestrator.ActiveProviders | jellyroll/__init__.py:22-42 | the active providers form a table with one entry per module path |
| Orchestrator.ActiveProvidersFails | jellyroll/__init__.py:28-35 | finding the active providers fails exactly when some configured provider fails to import or instantiate, and then with the first such exception |
| Orchestrator.ActiveProvidersEnabled | jellyroll/__init__.py:37-40 | a module path is active exactly when a provider configured under it is enabled, and every active provider is enabled |
| Orchestrator.Selected | jellyroll/__init__.py:51-54 | the selection is every active provider for None and otherwise the active providers that were requested, each once; requested names that are not active are dropped |
| Orchestrator.Filter | jellyroll/__init__.py:54 | the intersection keeps exactly the active names that were requested, each once |
| Orchestrator.RunAllStops | jellyroll/__init__.py:56-72 | only KeyboardInterrupt or SystemExit ends the loop early, as the last logged outcome; otherwise every selected provider has its turn |
| Orchestrator.RunAllLog | jellyroll/__init__.py:56-66 | the providers run in selection order, one log entry each |
| Orchestrator.Update | jellyroll/__init__.py:44-72 | a failure finding the active providers propagates before any provider runs; a run that is not interrupted gives exactly the selected providers a turn |
| Orchestrator.RunAllSplits | jellyroll/__init__.py:65-72 | a provider that raises an ordinary exception does not stop or change the runs of the providers after it |
| Orchestrator.DisabledNeverRuns | jellyroll/__init__.py:37-40 | a provider that is not enabled, such as one keeping the base `enabled()` that returns None, never runs whatever is requested |
| Orchestrator.RegisterProvider | jellyroll/providers/__init__.py:525-535 | the module path maps to the provider class's name, replacing an earlier registration from that module, and no other module's entry changes |
| CodeProviders.RepoOf | jellyroll/contrib/code/providers.py:29 | a record's repository value resolves exactly when it references a stored repository, to that repository; anything else has no `url` and raises AttributeError |
| CodeProviders.SourceId | jellyroll/contrib/code/providers.py:28-30 | the source id is the repository's url, ":r" and the revision; a missing repository or revision raises KeyError, the repository being read first |
| CodeProviders.CheckpointCoversOwnCommits | jellyroll/contrib/code/providers.py:32-34 | a stored commit Item made for a repository's record is counted by that repository's checkpoint |
| CodeProviders.CheckpointCountsLongerUrls | jellyroll/contrib/code/providers.py:32-34 | the checkpoint filter is a prefix test, so a repository whose url prefixes another's also counts the other's commits |
| CodeProviders.ForType | jellyroll/contrib/code/providers.py:36-37 | the update data is exactly the stored repositories of the provider's kind |
| CodeProviders.UpdateCommitsOk | jellyroll/contrib/code/providers.py:39-46 | the commit update succeeds exactly when every repository's updater does, each given that repository's own checkpoint |
| CodeProviders.UpdateCommitsFrom | jellyroll/contrib/code/providers.py:39-46 | every candidate came from the kind's updater run on one of the repositories with that repository's checkpoint |
| CodeProviders.UpdateCommitsInOrder | jellyroll/contrib/code/providers.py:40-46 | all repositories append to one list in repository order: the candidates of earlier repositories come first |
| CodeProviders.FixSentinel | jellyroll/providers/gitscm.py:44-47 | a checkpoint falling on 1969-12-31 becomes 1970-01-01 00:00; any other is kept; the result never falls on 1969-12-31 |
| CodeProviders.EmptyCheckpointAsksFromEpochDay | jellyroll/providers/gitscm.py:44-50 | with no commit stored, for any time-zone offset from -12 to +14 hours git is asked for the commits since 1970-01-01 |
| CodeProviders.GitCandidatesAreOwnersCommits | jellyroll/providers/gitscm.py:50-68 | the git candidates are exactly the listed commits whose author email is the repository's username, each with its id, repository, message and time |
| CodeProviders.GitReversesListing | jellyroll/providers/gitscm.py:53 | commits are appended in reverse of the listed order |
| CodeProviders.GitSourceId | jellyroll/contrib/code/providers.py:28-30 | a git candidate's source id is its repository's url, ":r" and the commit id |
| CodeProviders.UpdateSvn | jellyroll/providers/svn.py:35-37 | without pysvn the Subversion update raises AttributeError on `pysvn.Revision` |
| CodeProviders.SvnCandidatesAreOwnersEntries | jellyroll/providers/svn.py:38-52 | the Subversion candidates are exactly the log entries whose author is the repository's username, each with its revision numeral, repository, message and date |
| CodeProviders.SvnReversesLog | jellyroll/providers/svn.py:40 | log entries are appended in reverse of the log order |
| CodeProviders.SvnRevisionIsNumeral | jellyroll/providers/svn.py:47 | a Subversion candidate's revision reads back as the revision number and is its own short form |
| CodeProviders.SvnSourceId | jellyroll/contrib/code/providers.py:28-30 | a Subversion candidate's source id is its repository's url, ":r" and the revision number's numeral |
| CodeProviders.Provider | jellyroll/contrib/code/providers.py:24-26 | a code repository provider queues CodeCommit alone, keeps the base hooks and keeps the database invariants |
| CodeProviders.SvnProvider | jellyroll/providers/svn.py:28-33 | the Subversion provider is enabled exactly when pysvn imported, and queues CodeCommit alone |
| Code.FormatRevision | jellyroll/backends/code/models.py:47-54 | a revision that reads as an integer is shown as a numeral of the same integer; any other is cut to its first seven characters |
| Code.NumeralRevisionUnchanged | jellyroll/backends/code/models.py:51-52 | a numeral as `str` writes it is its own short form |
| Code.ChangesetUrl | jellyroll/backends/code/models.py:56-59 | a repository without a changeset template gives the empty url |
| Code.ChangesetUrlOfTemplate | jellyroll/backends/code/models.py:57-58 | a template with one `%s` gives the page of exactly this revision |
| Code.CommitDisplay | jellyroll/backends/code/models.py:44-45 | the display string starts with the short revision in brackets and a space |
| Delicious.ChainPath | jellyroll/providers/delicious.py:24-29 | an attribute chain's method path is the client's path and the attribute names joined by '/', with the account kept |
| Delicious.PostsPaths | jellyroll/providers/delicious.py:24-29 | the updater's calls go to "v1/posts/" and the call's name |
| Delicious.RetryOutcome | jellyroll/providers/delicious.py:36-51 | a call makes at most three attempts; its outcome is the first attempt that succeeds or is interrupted, or else the third failure |
| Delicious.Call | jellyroll/providers/delicious.py:34-53 | the retry loop makes one to three attempts, retries only ordinary failures, returns the last attempt's outcome, and agrees with the recursive definition |
| Delicious.Candidate | jellyroll/providers/delicious.py:91-98 | a post becomes a record holding every attribute as text plus tags, url and the parsed timestamp copied from tag, href and time; a post missing one of those raises KeyError |
| Delicious.DatesToFetch | jellyroll/providers/delicious.py:87-89 | the dates fetched are exactly the listed dates after the checkpoint |
| Delicious.DatesToFetchAppend | jellyroll/providers/delicious.py:87 | the listing is walked in reverse: later listed dates are fetched first |
| Delicious.UpdateBookmark | jellyroll/providers/delicious.py:78-85 | a failure reading the last post time propagates, and a last post no later than the checkpoint gives no candidates |
| Delicious.UpdateBookmarkAfterCheckpoint | jellyroll/providers/delicious.py:82-98 | every candidate is a post of a listed date after the checkpoint, and there are candidates only when the last post is after it |
| Delicious.SourceId | jellyroll/providers/delicious.py:68-69 | the source id is the post's hash; a record without one raises KeyError |
| Delicious.CandidateSourceId | jellyroll/providers/delicious.py:68-69 | a candidate's source id is its post's hash, so a post fetched again maps to the same Item |
| Delicious.DefaultFields | jellyroll/providers/delicious.py:71-73 | the default fields are exactly the base fields other than thumbnail and thumbnail_url |
| Delicious.Provider | jellyroll/providers/delicious.py:60-66 | the constructor registers no model and the base `enabled()` leaves the provider disabled |
| Delicious.RunChangesNothing | jellyroll/providers/delicious.py:60-66 | running the provider with no model registered fetches nothing and changes nothing |
| Pipeline.Without | jellyroll/providers/delicious.py:71-73 | the field list without a name holds exactly the other fields, and is no longer |
| Flickr.SourceId | jellyroll/providers/flickr.py:75-79 | the source id is "flickr:" and the record's photo or set id; a record without the id raises KeyError |
| Flickr.SourceIdInjective | jellyroll/providers/flickr.py:75-79 | two records of one model share a source id exactly when they share the Flickr id |
| Flickr.ClsSourceId | jellyroll/providers/flickr.py:75-79 | the pipeline's call on the Photo or Photoset class is the photo or set source id |
| Flickr.PlainTags | jellyroll/providers/flickr.py:91 | the plain tags are exactly the contents of the tags that are not machine tags |
| Flickr.Dedup | jellyroll/providers/flickr.py:91 | the set of tag contents holds every content once and nothing else |
| Flickr.ConvertTagsPieces | jellyroll/providers/flickr.py:90-91 | splitting the converted tag text on spaces gives every non-machine tag content exactly once and nothing else |
| Flickr.DefaultFields | jellyroll/providers/flickr.py:93-98 | a photo's default fields are exactly its non-key fields other than `_exif`; a set's are the base ones |
| Flickr.PagesRead | jellyroll/providers/flickr.py:107-117 | pages are read while the page number does not exceed the count each response reports, and the loop ends at the first response where it does |
| Flickr.PagesReadStops | jellyroll/providers/flickr.py:115-117 | responses after the one that ends the loop are never looked at |
| Flickr.PhotoFields | jellyroll/providers/flickr.py:126-144 | a photo's record holds its id, its time taken as timestamp, no set, its converted tags and its licence url |
| Flickr.PhotoCandidate | jellyroll/providers/flickr.py:128 | a photo whose licence id the licence list lacks raises KeyError, and any other becomes its record |
| Flickr.UpdatePhotoNew | jellyroll/providers/flickr.py:119-146 | every photo candidate was taken no earlier than the checkpoint and belongs to no set |
| Flickr.UpdatePhotoImports | jellyroll/providers/flickr.py:110-147 | a photo on a page that was read, preceded on its page only by photos no older than the checkpoint, becomes a candidate: an old photo stops only its own page |
| Flickr.UpdatePhotoStops | jellyroll/providers/flickr.py:115-117 | the update ignores every response after the first whose page number exceeds its page count |
| Flickr.SetCandidate | jellyroll/providers/flickr.py:159-167 | a set's record holds its id, the current time as timestamp and the url "<photos url>/sets/<id>/" |
| Flickr.UpdatePhotoset | jellyroll/providers/flickr.py:149-169 | one record per listed set, in listing order |
| Flickr.PhotoCandidateComplete | jellyroll/providers/flickr.py:93-96 | a photo record carries the primary key and every default field, and its source id is the photo's Flickr id |
| Flickr.SetCandidateComplete | jellyroll/providers/flickr.py:97-98 | a set record carries the primary key and every default field, and its source id is the set's Flickr id |
| Flickr.ConvertExifNames | jellyroll/providers/flickr.py:81-88 | the converted EXIF dictionary has exactly the listed tag names |
| Flickr.ConvertExifLast | jellyroll/providers/flickr.py:83-87 | each name has the cleaned value of its last entry, or the raw value when it has no cleaned one |
| Flickr.PreHandleItemCreated | jellyroll/providers/flickr.py:171-177 | a new set is left alone; a new photo gets the EXIF data fetched for its id and secret stored as JSON and is saved, so its row is stored; the invariants are kept |
| Flickr.LinkOne | jellyroll/providers/flickr.py:193-198 | adding a listed photo links the stored photo with that id to the set; an id with no stored photo is skipped; no row is created and other rows are kept |
| Flickr.LinkPhotos | jellyroll/providers/flickr.py:192-198 | linking the listed ids creates no row and keeps every row that is not a listed photo, and the invariants |
| Flickr.LinkPhotosLinks | jellyroll/providers/flickr.py:192-198 | every listed id with a stored photo ends linked to the set |
| Flickr.ListedIds | jellyroll/providers/flickr.py:183-200 | the listed ids are exactly those on the pages read |
| Flickr.PostHandleDefault | jellyroll/providers/flickr.py:179-180 | a handled photo leaves the database as it is |
| Flickr.HooksKeepValid | jellyroll/providers/flickr.py:171-200 | both Flickr hooks keep row keys and Item keys unique |
| Flickr.Provider | jellyroll/providers/flickr.py:55-63 | Photo is queued before Photoset, and the provider keeps the database invariants |
| GSearch.GetEngine | jellyroll/providers/gsearch.py:34 | the engine is found exactly when one stored engine has the name, and is that row; none raises DoesNotExist |
| GSearch.EngineNameOf | jellyroll/providers/gsearch.py:52 | a record's engine value names the provider's engine exactly when it references that engine's row |
| GSearch.SourceId | jellyroll/providers/gsearch.py:50-54 | a search's source id is its engine's name, query and guid joined by ':', a missing engine raising KeyError; a result's is the md5 of its url |
| GSearch.SearchIdEndsWithGuid | jellyroll/providers/gsearch.py:52 | a search's source id ends with its guid |
| GSearch.ClsSourceId | jellyroll/providers/gsearch.py:50-54 | the pipeline's call on the WebSearch or WebSearchResult class is the search or result source id |
| GSearch.DefaultFields | jellyroll/providers/gsearch.py:56-64 | a result's default fields are base fields with the first `search` removed; other classes keep the base fields |
| GSearch.ResultDefaultFields | jellyroll/providers/gsearch.py:56-64 | a result's default fields are exactly title and url |
| Pipeline.RemoveFirstSplits | jellyroll/providers/gsearch.py:59-62 | removing a field removes just its first occurrence, keeping the fields before and after it |
| GSearch.SearchCandidateSourceId | jellyroll/providers/gsearch.py:72-77 | a search candidate's source id is the engine's name, the entry's title and its search guid |
| GSearch.UpdateWebsearchKeeps | jellyroll/providers/gsearch.py:66-79 | the search update fails exactly when an entry has no tag, and its candidates are exactly the entries whose first tag is "web query" |
| GSearch.UpdateWebsearchResultKeeps | jellyroll/providers/gsearch.py:81-93 | the result update fails exactly when an entry has no tag; its candidates are entries whose first tag is "web result", in feed order |
| GSearch.SearchFor | jellyroll/providers/gsearch.py:98-105 | the search Item is the one WebSearch Item whose source id ends with the guid; none raises ProviderException with the guid, several raise MultipleObjectsReturned |
| GSearch.PreHandleItemCreated | jellyroll/providers/gsearch.py:95-105 | only a new result is touched and nothing is saved; it gets the stored search whose Item its guid names, and a guid no search Item ends with raises ProviderException; a search Item whose row is gone leaves `search` None, which raises ValueError |
| GSearch.ResultFindsItsSearch | jellyroll/providers/gsearch.py:95-101 | a result whose guid ends the source id of exactly one stored search is linked to that search |
| GSearch.HooksKeepValid | jellyroll/providers/gsearch.py:95-105 | the provider's hooks keep row keys and Item keys unique |
| GSearch.Registered | jellyroll/providers/gsearch.py:35-36 | searches are queued before results, so a run stores the searches before the results look them up |
| GSearch.Provider | jellyroll/providers/gsearch.py:31-40 | construction fails exactly when the Google engine row cannot be read, and otherwise queues searches then results |
| Lastfm.SourceId | jellyroll/providers/lastfm.py:41-44 | the source id exists exactly when artist, track and timestamp can all be read as text, and fails with the first failure otherwise |
| Lastfm.SourceIdOfTriple | jellyroll/providers/lastfm.py:41-44 | records agreeing on artist, track and timestamp share a source id, whatever else they hold |
| Lastfm.TagOf | jellyroll/providers/lastfm.py:75-76 | a tag is the slugified name cut to 50 characters: no longer than 50, a prefix of the slug, and the whole slug when that fits |
| Lastfm.AddTag | jellyroll/providers/lastfm.py:76 | adding a tag to the set adds exactly that member and keeps the others |
| Lastfm.Tags | jellyroll/providers/lastfm.py:72-76 | the collected tags hold no duplicate |
| Lastfm.TagsMembers | jellyroll/providers/lastfm.py:72-76 | the tags are exactly those of elements used at least the threshold number of times, each at most 50 characters |
| Lastfm.TagsForUrl | jellyroll/providers/lastfm.py:61-78 | a timeout (HTTP 408) or an unparsable document gives no tags, any other fetch failure propagates, and a read document gives its tags without duplicates |
| Lastfm.TagsForUrlKept | jellyroll/providers/lastfm.py:72-78 | a read document answers exactly the tags of its elements at or above the threshold |
| Lastfm.MemoAsWritten | jellyroll/providers/lastfm.py:80-82 | the memo as written keys on the provider, not the url: once filled it answers its cached tags for every url |
| Lastfm.MemoStaleExample | jellyroll/providers/lastfm.py:80-82 | two urls whose documents give different tags exist, so the memo as written answers one of them wrongly |
| Lastfm.Memo | jellyroll/providers/lastfm.py:80-82 | the memo keyed by url answers a cached url from the cache and adds a fetched url's tags without changing other entries |
| Lastfm.MemoSound | jellyroll/providers/lastfm.py:80-82 | a memo keyed by url answers exactly as fetching would and stays sound |
| Lastfm.Update | jellyroll/providers/lastfm.py:59 | adding tags to a set keeps it free of duplicates and keeps its members |
| Lastfm.UpdateMembers | jellyroll/providers/lastfm.py:59 | updating a set adds exactly the new members |
| Lastfm.TrackTagsMembers | jellyroll/providers/lastfm.py:53-59 | a track's tags are exactly those of its artist's document and its own, each once |
| Lastfm.TagsForTrackAsWritten | jellyroll/providers/lastfm.py:46-59 | as written the function returns None and leaves the memo filled; with the memo empty it fails exactly when the artist document fails with something other than a timeout or a parse error, and with the memo filled it never fails |
| Lastfm.TagsForTrack | jellyroll/providers/lastfm.py:46-59 | as intended the result is the collected tags joined by spaces, and fails exactly when a fetch fails |
| Lastfm.TagsDropped | jellyroll/providers/lastfm.py:46-59 | a track with tags gets None as written and its tags as intended |
| Lastfm.TrackRecordAsWritten | jellyroll/providers/lastfm.py:96-106 | the record as written carries the track's names and time and None for its tags |
| Lastfm.UpdateTrackAsWritten | jellyroll/providers/lastfm.py:84-108 | as written the update fails exactly when the memo is empty and the first track's artist document fails with something other than a timeout or a parse error; with the memo filled it never fails and leaves the memo as it was |
| Lastfm.UpdateTrackAsWrittenNoTags | jellyroll/providers/lastfm.py:84-108 | as written every track of the feed gives one record, in feed order, with its names and time and None for its tags |
| Lastfm.UpdateTrackFails | jellyroll/providers/lastfm.py:84-108 | with `tags_for_track` and the memo corrected, the track update fails exactly when some track's tags cannot be fetched |
| Lastfm.UpdateTrackAll | jellyroll/providers/lastfm.py:85-108 | with `tags_for_track` corrected, every track of the feed, however old, gives one candidate in feed order with its names, time and joined tags: the checkpoint read is never used |
| Lastfm.CandidateSourceId | jellyroll/providers/lastfm.py:41-44 | a candidate's source id is the md5 of its artist, track and time |
| Lastfm.Provider | jellyroll/providers/lastfm.py:28-32 | the provider queues Track alone, keeps the base hooks and the database invariants |
| Values.HashThree | jellyroll/providers/twitter.py:58-61 | the md5 source id of three keys exists exactly when all three can be read as text, and fails with the first failure otherwise |
| Twitter.SourceId | jellyroll/providers/twitter.py:58-61 | the source id exists exactly when message, url and timestamp can all be read as text, and fails with the first failure otherwise |
| Twitter.SourceIdOfTriple | jellyroll/providers/twitter.py:58-61 | records agreeing on message, url and timestamp share a source id: links and tags do not count |
| Twitter.LinkNumber | jellyroll/providers/twitter.py:125-129 | a URL's number is one more than the index of its last occurrence, since a repeated URL overwrites its earlier entry |
| Twitter.MarkersPointBack | jellyroll/providers/twitter.py:124-131 | every URL of the text is replaced by a reference "[n]" whose entry of the links list is that URL, so the lookup never fails |
| Twitter.DropUser | jellyroll/providers/twitter.py:133 | a leading "<user>:" is removed once, and a text without it is kept |
| Twitter.TransformRetweet | jellyroll/providers/twitter.py:97-104 | a retweet text without "%s" is used as it is |
| Twitter.DefaultRetweet | jellyroll/providers/twitter.py:97-104 | without a configured text a retweet reads "Forwarding from <user>: " |
| Twitter.UserRefLinked | jellyroll/providers/twitter.py:106-110 | a lone "@user" becomes the link to that user's timeline |
| Twitter.TagWords | jellyroll/providers/twitter.py:139 | each tag match gives its text without the leading '#' |
| Twitter.ParseMessage | jellyroll/providers/twitter.py:112-142 | the links are the URLs of the newline-free text, the tags are the #tags of the rewritten text, and the message has no surrounding whitespace |
| Twitter.TagsAreWords | jellyroll/providers/twitter.py:139 | the tags text is "" exactly when there is no #tag, and otherwise splits on spaces back into the tag words, each a non-empty run of word characters |
| Twitter.ParseSucceeds | jellyroll/providers/twitter.py:112-142 | parsing succeeds for every text when the retweet text formats for every user |
| Twitter.DefaultRetweetFormats | jellyroll/providers/twitter.py:98-104 | the default retweet text formats for every user |
| Twitter.UpdateMessageFails | jellyroll/providers/twitter.py:63-80 | the message update fails exactly when some status's date or text does not parse |
| Twitter.VerbatimMessages | jellyroll/providers/twitter.py:148 | with the transforms off every status is kept verbatim with no links and no tags, in feed order |
| Twitter.CandidateSourceId | jellyroll/providers/twitter.py:58-61 | a candidate's source id is the md5 of its parsed text, its link and its time |
| Twitter.PostHandleDefault | jellyroll/providers/twitter.py:82-92 | the hook changes nothing when it succeeds; it succeeds exactly for a record that is not new or has no links; a new record with links raises AttributeError on `add` |
| Twitter.Provider | jellyroll/providers/twitter.py:46-50 | the provider queues Message alone, without a handler of its own, and keeps the invariants |
| Twitter.ProviderUpdate | jellyroll/providers/twitter.py:63-80 | the Message update fetches the user's timeline and emits its candidates |
| Twitter.LoadAsWritten | jellyroll/providers/twitter.py:144-148 | as written, the import raises AttributeError without a username (the line 27 pattern reads it) and NameError with the transforms off; only with them on does it give the provider |
| Twitter.UntransformedAbortsUpdate | jellyroll/providers/twitter.py:144-148 | as written, listing the provider with the transforms off aborts every update before any provider runs |
| Twitter.Load | jellyroll/providers/twitter.py:144-148 | as intended, loading fails only without a username and otherwise gives the enabled provider |
| Twitter.UntransformedStoresVerbatim | jellyroll/providers/twitter.py:144-148 | as intended, with the transforms off every status of the feed is emitted verbatim with no links |
| Twitter.LinkedRecordRolledBack | jellyroll/providers/twitter.py:82-92 | a new record with links fails inside its transaction, so the database is left as it was |
| Twitter.NewLinkedMessageDropped | jellyroll/providers/twitter.py:82-92 | a new status that carried a URL is never stored |
| Youtube.SourceId | jellyroll/providers/youtube.py:31-32 | the source id is the md5 of the record's url; a record without a url raises KeyError |
| Youtube.TagsDropLast | jellyroll/providers/youtube.py:43-48 | the last category never reaches the tags and every other one does, in order, joined by spaces |
| Youtube.UpdateVideoFails | jellyroll/providers/youtube.py:34-53 | the update fails exactly when some entry has no link or an unparsable publication date |
| Youtube.OneVideoPerEntry | jellyroll/providers/youtube.py:37-53 | every favourite gives one candidate in feed order with its first link, title and tags, filed under the YouTube source |
| Youtube.Registered | jellyroll/providers/youtube.py:24-28 | the provider queues Video alone, keeps the base hooks and the database invariants |
| Youtube.Provider | jellyroll/providers/youtube.py:24-29 | construction fails exactly when the one video source named "YouTube" cannot be read, and otherwise queues Video and is enabled exactly as the GData check says |
| Youtube.UpdateLogsIn | jellyroll/providers/youtube.py:34-36 | the Video update logs the service client in, then reads its favourites; a failed login or fetch fails it |
| Photos.Farm | jellyroll/backends/photo/models.py:96-100 | the farm prefix is empty exactly for a missing or zero farm id, and otherwise is "farm", a numeral that reads back as the id, and a dot |
| Photos.ImageUrl | jellyroll/backends/photo/models.py:115-121 | every image URL ends in ".jpg", and one of the five known sizes ends it in "_<size>.jpg" |
| Photos.ImageUrlSized | jellyroll/backends/photo/models.py:115-128 | a sized image URL is the plain one with "_<size>" put before ".jpg"; an unknown size gives the plain URL |
| Photos.PageUrlSegments | jellyroll/backends/photo/models.py:105-107 | the photo page URL splits on "/" into the Flickr host, "photos", the owner and the photo id |
| Photos.LicenseCode | jellyroll/backends/photo/models.py:132-137 | no code exactly when the photo has no licence; a code never holds "/"; too short a path raises IndexError |
| Photos.LicenseCodeOfCc | jellyroll/backends/photo/models.py:132-137 | a version 2.0 Creative Commons licence URL yields its short code |
| Photos.CcLicenseCodes | jellyroll/backends/photo/models.py:10-17 | each of the six licence choices yields its own short code |
| Photos.CanRepublish | jellyroll/backends/photo/models.py:139-164 | my own photo may always be republished; someone else's may not exactly when it has no licence or carries "nc" on a commercial site; a malformed licence raises |
| Photos.CcCodeTerms | jellyroll/backends/photo/models.py:158-173 | which of "nc", "nd" and "sa" the codes "by", "by-nc-nd" and "by-sa" hold |
| Photos.RightsOfOthersPhotos | jellyroll/backends/photo/models.py:143-174 | the republish, derivative and share-alike answers for someone else's photo that is unlicensed, CC Attribution, NonCommercial-NoDerivs or ShareAlike |
| Photos.DerivativeOk | jellyroll/backends/photo/models.py:166-169 | as written: never allowed when republishing is not, and allowed only for a republishable photo whose code has no "nd" |
| Photos.MustShareAlike | jellyroll/backends/photo/models.py:171-174 | as written: never required when republishing is not, and required only for a republishable photo whose code has "sa" |
| Photos.DerivativeOkIntended | jellyroll/backends/photo/models.py:166-169 | corrected: my own unlicensed photo allows derivatives, and only a malformed licence raises |
| Photos.MustShareAlikeIntended | jellyroll/backends/photo/models.py:171-174 | corrected: my own unlicensed photo needs no share-alike, and only a malformed licence raises |
| Photos.IntendedRightsAgree | jellyroll/backends/photo/models.py:166-174 | the corrected rights agree with the written ones wherever those answer, and answer exactly when the licence URL is well formed |
| Photos.GetExif | jellyroll/backends/photo/models.py:89-93 | empty EXIF text reads as an empty dictionary |
| Photos.SetExif | jellyroll/backends/photo/models.py:87-88 | storing EXIF keeps the photo's id, owner and licence |
| Photos.ExifRoundTrip | jellyroll/backends/photo/models.py:85-94 | a dictionary written as EXIF reads back unchanged, given a JSON codec that round-trips |
| Videos.Docid | jellyroll/contrib/video/models.py:35-38 | the document id never holds "=" |
| Videos.DocidAfterLastEquals | jellyroll/contrib/video/models.py:35-38 | the document id is the URL query's text after its last "=", or the whole query when it has none |
| Videos.WatchUrlDocid | jellyroll/contrib/video/models.py:35-38 | a YouTube watch page URL yields the video id it was built from |
| Videos.EmbedOfWatchedVideo | jellyroll/contrib/video/models.py:40-42 | a watched YouTube video embeds at the source's template with its id in place of "%s" |
| Search.SearchUrlOfTemplate | jellyroll/contrib/search/models.py:36-38 | a template with one "%s" gives the results page of the URL-quoted query |
| Search.SearchUrlWithoutDirective | jellyroll/contrib/search/models.py:36-38 | a template without "%s" cannot take the query, and the url raises TypeError |
| TemplateTags.StripQuoted | jellyroll/contrib/code/templatetags/jellyroll_code_tags.py:13 | a name written between double quotes loses exactly those quotes |
| TemplateTags.ParseCommitsTag | jellyroll/contrib/code/templatetags/jellyroll_code_tags.py:32-45 | the tag compiles exactly when it has four tokens, or six with "limit" fifth and a numeral sixth, and "as" third; a bad shape is a TemplateSyntaxError, a bad limit a ValueError, an empty token list an IndexError |
| TemplateTags.ParseCommitsTagOfTag | jellyroll/contrib/code/templatetags/jellyroll_code_tags.py:12-45 | compiling the tag written for a node gives that node back |
| TemplateTags.SortedDescending | jellyroll/contrib/code/templatetags/jellyroll_code_tags.py:21 | a listing ordered by "-timestamp" never goes up in time |
| TemplateTags.CommitItems | jellyroll/contrib/code/templatetags/jellyroll_code_tags.py:22 | the selection succeeds exactly when every listed Item's commit exists, and then holds exactly the listed Items whose commit belongs to the repository |
| TemplateTags.CommitItemsDescending | jellyroll/contrib/code/templatetags/jellyroll_code_tags.py:21-22 | picking commits out of a latest-first listing keeps them latest first |
| TemplateTags.Objects | jellyroll/contrib/code/templatetags/jellyroll_code_tags.py:22 | the commits read are those the Items refer to, one per Item, in the Items' order |
| TemplateTags.RepositoryListingSound | jellyroll/contrib/code/templatetags/jellyroll_code_tags.py:19-22 | the repository's listing holds exactly the CodeCommit Items whose commit belongs to it, latest first |
| TemplateTags.Limited | jellyroll/contrib/code/templatetags/jellyroll_code_tags.py:23-26 | the shown commits are a prefix of the listing: all of it for no limit or 0, the first n for a positive limit, all but the last n for a negative one |
| TemplateTags.RenderCommits | jellyroll/contrib/code/templatetags/jellyroll_code_tags.py:17-30 | rendering writes no text and changes no context variable but its own |
| TemplateTags.ParsePhotosetTag | jellyroll/backends/photo/templatetags/jellyroll_photo_tags.py:23-30 | the tag compiles exactly when it has four tokens with "as" third; otherwise it is a TemplateSyntaxError, or an IndexError for an empty token list |
| TemplateTags.ParsePhotosetTagOfTag | jellyroll/backends/photo/templatetags/jellyroll_photo_tags.py:9-30 | compiling the tag written for a node gives that node back |
| TemplateTags.RenderPhotoset | jellyroll/backends/photo/templatetags/jellyroll_photo_tags.py:14-21 | rendering writes no text, changes no context variable but its own, and fails only when several sets share the title |
| Sorting.SortSorted | jellyroll/providers/__init__.py:195-197 | the stable sort of the update queue is in order and is a permutation of the registrations |
| Sorting.SortOfSorted | jellyroll/providers/__init__.py:195-197 | a queue already in priority order comes back from the sort unchanged |
| Pipeline.SortedIsMonotone | jellyroll/providers/__init__.py:195-197 | a queue sorted by priority never goes down in priority from one registration to a later one |
| Strings.SplitOfJoin | jellyroll/backends/photo/models.py:136 | pieces free of the separator, joined with it, split back into the same pieces |
| Strings.SplitJoin | jellyroll/backends/photo/models.py:136 | splitting on a character and joining with it gives back the original text |
| Strings.FormatOne | jellyroll/contrib/video/models.py:41 | a template with one "%s" and no other "%" formats to the argument in its place |
| Strings.FormatWithoutDirective | jellyroll/contrib/video/models.py:41 | a template without "%" cannot take the argument and raises TypeError |
| Urls.ParseAssembled | jellyroll/contrib/video/models.py:36 | `urlparse` of an absolute URL assembled from scheme, host, path and query returns that path and that query |
| Patterns.HashTagsTagged | jellyroll/providers/twitter.py:139 | every `#\w+` match is a "#" followed by a non-empty word |
| Twitter.TagWordsJoin | jellyroll/providers/twitter.py:139 | the joined tag words are "" exactly when there are none, and otherwise split on spaces back into the words |

## Left out

- Network access, feed parsing and service clients are left out. Every fetched document, feed, page or log is an abstract sequence of entries passed in. This covers the Flickr, del.icio.us and last.fm HTTP calls, the GData login and feeds, the Subversion log and `commits_since`.
- The git clone, its temporary directory and the pattern over the clone output are left out. The commits the clone yields are a parameter.
- Clocks and time zones are parameters: `datetime.now`, the local `fromtimestamp(0)` epoch, `JELLYROLL_ADJUST_DATETIME`, `strftime` and `mktime`. Timestamps are integers.
- md5, slugify, `quote_plus`, `urlquote`, JSON, `truncate_words`, `str` of a datetime, dateutil parsing and the Twitter URL pattern are uninterpreted parameters. The EXIF round trip assumes that JSON text decodes to what was encoded.
- The del.icio.us client's sleep between calls and its rate-limit timing are left out. Only its attempt bound and method path are modelled.
- Logging is left out. The model returns the failure that would have been logged, and the run continues as the code does.
- The ORM is a list of rows with unique keys. Querysets, `ContentType` and lazy evaluation are not modelled. `photoset.photos.all()` is taken in stored order.
- `repr` escaping in the template-tag error messages is not modelled. `%r` is the token between single quotes.
- Python 2 dictionary order is not modelled. `update_main` and `handle_main` take the keys of a dictionary in arbitrary order before the stable priority sort, and the model starts from registration order. Models of equal priority may therefore run in a different order in the program.
- Flickr `convert_tags` builds a Python set, whose order is unspecified. `Flickr.Dedup` keeps the first occurrence of each tag in its original order.
- Twitter `USERNAME_RE` is built by pasting the username into a regular expression. The model treats the username as literal text, which differs only for usernames that contain pattern characters.
- `jellyroll.update` builds a fresh provider instance for every run. The model passes provider values, and they carry no state between runs.
- The `elif created` branch of `handle_item` is dead code, because every provider has a `source_id` attribute. The model keeps only the live branch.
- `GitSCMProvider` is not modelled as a registered provider. Its `Meta` names an attribute that does not exist, so importing the module raises, and it sets no `REPOSITORY_TYPE`. Its update rule is modelled on its own as `CodeProviders.UpdateGit`.
- `jellyroll/__init__.py` imports names that the providers package does not define. The model follows the call sites that are shown.
- `DeliciousProvider` is never active, because it does not override the base `enabled()`. Its `Meta` is unused. Its rules are modelled, and its run changes nothing.
- The last.fm and Twitter updates read their model's checkpoint and never use it, and the YouTube update reads none. The model's updates for the three take no checkpoint.
- The default ordering of commits by descending revision is left out. It only affects ORM listings, and the core never relies on it.
- The admin modules, the feeds, the management command and the schema-only models (bookmark, track, message, utils) are not part of this model.
- The `__unicode__` string forms of `VideoSource`, `Video`, `SearchEngine`, `WebSearch` and `WebSearchResult` are modelled as plain field reads without contracts, because they only return one field.
- The "results" relation of a web search is only the `search` key of each result. It has no operations of its own.
- TemplateTags.RenderCommits: its contract states only that no other context variable changes and that the output is empty. What the variable holds (the repository's listing, cut to the limit) follows from the definition alone, so that lemma, `RenderCommitsShows`, has no table row.
- TemplateTags.RenderPhotoset: its contract states the same framing. That an unknown title leaves the context unchanged, and that a found set shows exactly its stored photos, follow from the definition alone (`UnknownPhotosetUnchanged`, `RenderPhotosetShows`).
- Photos.GetExif: its contract covers only the empty case. The decoding itself is the JSON parameter's, and `ExifRoundTrip` states the round trip.
- Videos.Docid: its contract says only that the id holds no "=". The full characterisation is `DocidAfterLastEquals`.
- Lastfm.UpdateTrack: the provider's updater runs the corrected `tags_for_track` and needs no memo, so its records carry the joined tags and it fails when any track's fetch fails. As written every record's tags are None and only the first fetch can fail; that behaviour is `UpdateTrackAsWritten`, with its own lemmas, and the Findings table records both.
- Orchestrator.Selected: `update` iterates `active.keys()` or a set intersection, whose order Python 2 leaves arbitrary. The model uses the order of the active-provider table.
- Orchestrator.Filter: the intersection is kept in the order of the active-provider table, where Python's set has no order.
- Orchestrator.RunAllLog: the log follows the selection order above. The program may run and log the same providers in another order.
- Structured.GetUpdateData: as written the result is the data of whichever `DATA_URLS` entry the dictionary yields first. The model takes the first-registered entry.
- `urlsplit` and `urlparse` are modelled as they split http URLs. The per-scheme tables `uses_netloc`, `uses_query` and `uses_params` are not consulted, which matters only for other schemes.
- The base hooks `pre_handle_default` and `post_handle_item` do nothing, and no provider overrides them. The model leaves them out, which changes no behaviour.
- Records.ResolveTime: a string timestamp is refused with ValueError, whereas Django's DateTimeField parses a well-formed one on save. Every provider passes a datetime or None.
- The `%` operator is modelled for `%s` and `%%` only. A numeric conversion raises TypeError, and any other directive, including `%r` and directives with flags or a width, is treated as unsupported.

## Findings

| source | as written | input that shows it | evidently intended | confidence | as-written member | corrected member |
|---|---|---|---|---|---|---|
| jellyroll/backends/photo/models.py:166-174 | `derivative_ok` and `must_share_alike` test `"nd"`/`"sa"` in `license_code` even when `can_republish` was True only because the photo is mine, and then the code is None | a photo whose `taken_by` is `FLICKR_USERNAME` and whose `cc_license` is "": `"nd" in None` raises TypeError | my own unlicensed photo allows derivatives and needs no share-alike | high, not executed | Photos.DerivativeOk, Photos.MustShareAlike, Photos.OwnUnlicensedPhotoRaises | Photos.DerivativeOkIntended, Photos.MustShareAlikeIntended, Photos.IntendedRightsAgree |
| jellyroll/providers/__init__.py:472-485 | the loop over `DATA_URLS` in `get_update_data` returns inside its first iteration, so every model gets the data of the first entry the dictionary yields | two models registered with different data URLs: the second model's updater receives the first model's payload | each model receives the data registered for it, or None | medium, not executed | Structured.SecondModelGetsFirstData | Structured.GetUpdateDataFor, Structured.SharedSourceAgrees |
| jellyroll/providers/lastfm.py:80-82 | `memoize(tags_for_url, cache, 1)` keys the cache on the first argument, which is `self`, so the first url's tags are returned for every later url | a track whose artist document has the tag "rock" at the threshold and whose track document has none: the track url is answered with the artist's tags, and so is every later url | tags cached per url | high, not executed | Lastfm.MemoAsWritten, Lastfm.MemoServesFirstUrl, Lastfm.MemoStaleExample, Lastfm.UpdateTrackAsWritten | Lastfm.Memo, Lastfm.MemoSound |
| jellyroll/providers/lastfm.py:46-59 | `tags_for_track` computes the tags and never returns them | any track with at least one popular tag: the candidate's tags are None | the artist tags and the track tags, joined | high, not executed | Lastfm.TagsForTrackAsWritten, Lastfm.TagsDropped, Lastfm.UpdateTrackAsWrittenNoTags | Lastfm.TagsForTrack, Lastfm.UpdateTrackAll |
| jellyroll/providers/twitter.py:144-148 | with `TWITTER_TRANSFORM_MSG` off, the class body assigns to `TwitterProvider.parse_message` before the name `TwitterProvider` exists | importing the module with the setting absent raises NameError, so the provider never loads | `parse_message` replaced by the identity transform | high, not executed | Twitter.LoadAsWritten, Twitter.UntransformedAbortsUpdate | Twitter.Load, Twitter.UntransformedStoresVerbatim |
