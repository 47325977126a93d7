# EgilSCIM, modelled and verified in Dafny

The EGIL SCIM client keeps a remote SCIM server in step with a local data source. In every run it renders
the current objects to JSON, compares them with a cache of what it has sent before, sends creates, updates and
deletes in a fixed order, and writes a new cache. This project models that protocol, the cache file, the template
interpreter that renders the JSON, the hand-written parsers and the attribute index, and proves what they promise.

Every part that works step by step is modelled as it works: classes with the program's fields, methods with its
loops and branches, an array that is edited in place. Each such method is proved to do what a function says, and the
properties are proved about the functions, for all inputs.

| modules | what they model |
|---|---|
| `RenderedObjects`, `ScimSender`, `Sync`, `ScimActions` | the id-keyed cache, the sender with its timeout counter and abort flag, one run of the synchronisation as a plan of operations that is executed one request at a time, and the imperative run itself |
| `SyncPlan`, `SyncOrder`, `SyncTruth`, `SyncHistory`, `SyncForced`, `SyncMoves`, `SyncConvergence`, `SyncMemory`, `SyncTrace`, `ScimStopping`, `SyncReferences`, `SyncRebuild`, `SyncSpace` | what holds of every plan, its order, every run and every sequence of runs |
| `CacheFile`, `CacheStream`, `CacheReading`, `CacheLaws` | the binary cache file: its format and size estimate; writer, reader, pre-allocation and truncation; that reading inverts writing; which bytes are accepted, and why others are not |
| `Pagination`, `ServerListing` | reading everything a server has, page by page and endpoint by endpoint |
| `Template`, `TemplateParser`, `TemplateTermination`, `TemplateMeaning`, `TemplateReading`, `TemplateSkipping`, `TemplateRefinement`, `TemplateLaws` | the one-pass template interpreter, its termination, a denotational meaning of templates, that the interpreter computes it, and what variables, switches and loops expand to |
| `JsonText` | escaping, and the pass that removes trailing commas |
| `Splitter`, `SplitterJson`, `SplitterStreams`, `SplitterCuts`, `SplitterAccepted` | the splitter of JSON object streams, for any input, for JSON texts and for texts that are cut short; which texts it accepts |
| `Csv`, `CsvLayout`, `CsvAccepted`, `CsvRefused` | the CSV reader, the files it accepts, and why it refuses the others |
| `Config`, `ConfigPlaces`, `ConfigLayout`, `ConfigAccepted`, `ConfigRefused`, `ConfigRows` | the configuration parser, the places it reports, the texts it accepts, and why it refuses the others |
| `ObjectLists` | lists of objects with lazily built indices |
| `Ordering`, `Text`, `Wrappers` | the iteration order of maps, pieces of text at positions, Option and Result |

How a run is modelled. The remote server is a map from endpoint and id to JSON. A network says, for every request by
its number, whether it is treated properly or fails; a failed create or update may or may not have been applied.
Every theorem about runs is for all networks, except where it says fault-free. A state is the server, the sender and
the cache under construction. The configuration, the rendering of objects, the data source and the result of cutting
the file are parameters.

What was found out about the code:

- A cached id that is current under another type of the same run is updated under the new type and then deleted under
  the old one, because deletes are chosen by the cached type (src/scim.cpp:202-208). If the update fails, the new cache
  keeps an id that the server no longer has. `SyncMoves.TruthfulIffInPlace` states exactly when a run can leave an
  untruthful cache: when an id has moved.
- A cached object whose type is neither handled in this run nor current is forgotten without a word from the
  server. `SyncTrace.ForgetsExactlyTheUnattended` states exactly which ids are forgotten.
- A rebuild tests whether an id is listed under any endpoint (src/scim.cpp:125). An object that the server has under
  another endpoint only is updated in vain: it is not cached, or, if the update fails otherwise than with 404, cached
  though the server does not have it there. `SyncRebuild.RebuildCacheIff` and `SyncRebuild.RebuildTruthfulIff` are the
  exact conditions.
- Removing trailing commas once leaves a comma that stood before a trailing comma;
  `JsonText.OnePassIsEnoughIff` is the exact condition.
- Output that was cut short is noticed only if the cut is strictly inside the text of an object, because `incomplete`
  only looks at the brace depth; a cut after an object, after a comma or after the opening bracket of an array is taken
  for the end. `SplitterCuts.ArrayCutIff` and `SplitterCuts.StreamCutIff` are exact.
- A page without resources, while more are announced, is asked for again for ever
  (`Pagination.CollectsAllIff`).
- An index loses an object that is held under two uids when one of them is removed
  (`ObjectLists.RemoveAgreesIff`).
- A row of a configuration file that ends in a carriage return alone puts the line counter ahead for good
  (`ConfigPlaces.PlaceIsRightIff`, `ConfigRows.PlaceIsRightIffNoCrRow`).
- The grammar of configuration files here follows the code, not the overview in src/config_file_parser.hpp:75-87.

## Model

| member | source | states |
|---|---|---|
| ScimSender.Sender.SendCreate | src/simplescim_scim_send.cpp:487-532 | the new state of sender and server for any behaviour of the network; success exactly for 201 or 200, a conflict exactly for 409; an aborted sender sends nothing |
| ScimSender.Sender.SendUpdate | src/simplescim_scim_send.cpp:534-593 | the same for updates: success exactly for 200, absence exactly for 404 |
| ScimSender.Sender.SendDelete | src/simplescim_scim_send.cpp:596-629 | the same for deletes: 0 exactly for 204, otherwise the HTTP code, -1 when there was none |
| ScimSender.Sender.RegisterTimeout | src/simplescim_scim_send.cpp:714-719 | one more timeout is counted, and the sender aborts once there are more than allowed |
| ScimStopping.SendKeepsInvariant | src/simplescim_scim_send.cpp:487-629 | every request keeps: the counter is the number of timeouts on the wire, the flag is set exactly if the last exchange was a permanent failure or one timeout too many, and nothing was sent after such an exchange |
| RenderedObjects.RenderedObjectList.AddObject | src/model/rendered_object_list.cpp:22-24 | the object replaces what was under its own id, nothing else changes |
| RenderedObjects.EntriesExact | src/model/rendered_object_list.cpp:22-36 | iteration meets every stored object once, and no other |
| ScimActions.PreRenderedExact | src/scim.cpp:304-322 | rendered are exactly those objects of the handled types for which rendering works |
| ScimActions.PreRenderedWellFormed | src/scim.cpp:302-322 | what the theorems about runs assume of the renderings follows from unique, non-empty ids and a renderer that keeps id and type |
| ScimActions.Actions.CreateFunc | src/scim.cpp:456-478 | the new cache and server after a create, with the dummy for a conflict; 0 exactly if acknowledged and cached |
| ScimActions.Actions.UpdateFunc | src/scim.cpp:480-510 | the same for an update, with the dummy for a failure other than 404 |
| ScimActions.Actions.DeleteFunc | src/scim.cpp:427-454 | the same for a delete: cached again unless confirmed by success or 404 |
| ScimActions.Actions.ProcessChange | src/scim.cpp:114-189 | one current object is treated as classified: copied, created, updated or skipped |
| ScimActions.Actions.ProcessChanges | src/scim.cpp:105-190 | the loop over the objects of a type executes exactly the planned changes in key order |
| ScimActions.Actions.ProcessDeletes | src/scim.cpp:196-223 | the loop over the cache executes exactly the planned deletes of a type |
| ScimActions.Actions.ProcessDeletesPerEndpoint | src/scim.cpp:225-244 | the loop over the listed objects of an endpoint executes exactly the planned deletes |
| ScimActions.Actions.ProcessAllRefDeletes | src/scim.cpp:357-383 | the loop over the types executes exactly the planned deletes of a rebuild, whose order and number `SyncOrder.RebuildDeletesBackwards` and `SyncOrder.RebuildDeletesOnce` state |
| ScimActions.Actions.Perform | src/scim.cpp:296-414 | a whole run, for any network and whatever the file system refuses: without room for the new cache file nothing is sent; otherwise the final sender, server and new cache are those of executing the plan; if it can be written, the file holds the saved new cache over the reserved room, cut to length or not; 0 exactly if it was also put in place |
| SyncPlan.NormalPlanSeparate | src/scim.cpp:345-392 | in a normal run no two operations concern the same id, if no id has moved |
| SyncPlan.AllChangesCover | src/scim.cpp:345-352 | every current object of a handled type gets the operation it is classified for |
| SyncPlan.AllDropsCover | src/scim.cpp:384-391 | every cached object of a handled type that is not current gets a delete |
| SyncOrder.RebuildDeletesBackwards | src/scim.cpp:354-383 | of any two deletes of a rebuild, the first is under the endpoint whose last type comes later in the send order, or under the same endpoint and listed earlier; and after the first delete there are only deletes |
| SyncOrder.RebuildDeletesOnce | src/scim.cpp:366-369 | whatever types share an endpoint, no delete is sent twice, if the listing has no repeats |
| SyncOrder.RebuildReferrerGoesFirst | src/scim.cpp:354-383 | a surplus object is deleted before every one under an endpoint that the send order is done with earlier, as referrers are before what they refer to |
| SyncOrder.NormalDeletesBackwards | src/scim.cpp:384-391 | the deletes of a normal run go through the send order backwards, and through each type by id |
| SyncOrder.ChangesComeFirst | src/scim.cpp:345-352 | creates, updates and copies go through the send order, and through each type by id, before any delete |
| SyncTruth.RunKeepsTruth | src/scim.cpp:105-223 | after every single request of a normal run, on any network, every entry of the new cache is held by the server, with the cached JSON unless it is a dummy |
| SyncTruth.InvariantThroughout | src/scim.cpp:416-510 | the inductive invariant behind it, for any list of operations on different ids |
| SyncHistory.MakeDirty | src/main.cpp:149-159 | exactly the listed entries become dummies with their own id and type, whose text is spelled out; every other entry stays, none is added or lost |
| SyncHistory.ForceCreate | src/main.cpp:491-502 | exactly the listed entries whose object the data source has are gone, the others are as they were |
| SyncForced.ForcedAsAsked | src/main.cpp:486-506 | in a normal run a rendered object is created if it is not cached or to be created by force, else updated if it has changed or is to be updated by force, else copied |
| SyncForced.ForcedIsSent | src/main.cpp:486-506 | a forced create or update goes over the wire even if nothing has changed |
| SyncForced.UnrenderedIsKept | src/scim.cpp:118-189 | an object that fails to render is never sent: what is cached of it is copied by a normal run, and skipped by a rebuild |
| SyncForced.RebuildAsListed | src/scim.cpp:124-155 | a rebuild updates a rendered object if the server lists its id under any endpoint, and creates it otherwise |
| SyncForced.RebuildIgnoresCache | src/main.cpp:221 | a rebuild does the same on every network whatever the old cache holds and whatever is forced |
| SyncHistory.EveryRunKeepsTruth | src/scim.cpp:296-414 | truth is kept over any sequence of normal runs and rebuilds with changing data, types, listings, networks and forced updates or creates; what a rebuild relies on is that listed objects are at home |
| SyncHistory.ListedAtHome | src/scim.cpp:338-343 | they are, if the listing names what the server has and the server has every id under the endpoint of its type only |
| SyncHistory.RoundKeepsHome | src/scim.cpp:345-392 | and runs and rebuilds keep the server so |
| SyncHistory.OrderIsKept | src/scim.cpp:296-414 | all together: a truthful cache, and a server with every id under the endpoint of its type only, stay so over any sequence of runs, and of rebuilds whose listings name what the server then has |
| SyncHistory.SettledAfterAnyHistory | src/scim.cpp:296-414 | after any history of `SyncHistory.EveryRunKeepsTruth`, whatever went wrong in it, two fault-free normal rounds on the same data, with all cached types handled and no rendering that is a dummy, settle cache and server, and a third changes nothing |
| SyncMoves.MovedIdLost | src/scim.cpp:202-208 | for every id that has moved, a run in which only updates fail leaves it in the cache though the server has lost it |
| SyncMoves.TruthfulIffInPlace | src/scim.cpp:196-223 | runs keep every truthful cache truthful on all networks if and only if no id has moved |
| ScimStopping.RunStopsInTime | src/simplescim_scim_send.cpp:487-629 | in a whole run nothing is sent after a permanent failure or after more timeouts than allowed |
| SyncTrace.ForgetsExactlyTheUnattended | src/scim.cpp:114-223 | a cached id stays in the new cache or was confirmed absent by the server, on any network, if and only if the run attends to it: it is current under a handled type, or cached under one |
| SyncTrace.NoFalseMemory | src/scim.cpp:416-510 | every non-dummy entry of the new cache is unchanged from the old one or was acknowledged in this run |
| SyncConvergence.SettledAfterOne | src/scim.cpp:105-223 | one fault-free run gives cache and server the rendered data, and takes everything from the server that was cached and is no longer current, if the server holds no uncached object |
| SyncConvergence.TwoRunsSettle | src/scim.cpp:456-478 | from any truthful cache two fault-free runs on the same data do all of that: the first turns conflicts into dummies, the second updates them |
| SyncConvergence.SettledIsQuiet | src/scim.cpp:151-167 | on a settled cache a run sends nothing, on any network |
| SyncConvergence.ThirdRunIsQuiet | src/scim.cpp:105-223 | the third run sends nothing and changes neither cache nor server |
| SyncReferences.NoDanglingReferences | src/scim.cpp:345-392 | if references go to types earlier in the send order, and the old data and the data aimed at (the renderings, and the cached version of what fails to render) are reference-closed, so is the server after every single request of a fault-free run |
| SyncReferences.ReferencesSentFirst | src/scim.cpp:345-352 | whatever a sent object refers to has been dealt with before it |
| SyncReferences.ReferrerGoesFirst | src/scim.cpp:354-391 | deletes run backwards: a referrer goes before what it refers to |
| SyncRebuild.RebuildCacheIff | src/scim.cpp:124-155 | a fault-free rebuild, from any old cache and any server, ends with the rendered data as cache if and only if no listed rendered object is missing under the endpoint of its type; objects that fail to render are skipped |
| SyncRebuild.RebuildServerIff | src/scim.cpp:225-244 | and with the handled endpoints holding exactly the rendered objects if and only if the server had the id of no loaded object there other than where its rendering belongs; other endpoints are untouched |
| SyncRebuild.RebuildTruthfulIff | src/scim.cpp:338-383 | rebuilds leave a truthful cache on all honest networks if and only if every rendered object that is listed is found under the endpoint of its type |
| SyncRebuild.AstrayIsLost | src/scim.cpp:497-504 | for every other one, a rebuild in which only updates fail leaves it in the cache though the server does not have it there |
| SyncSpace.SpaceBound | src/rendered_cache_file.cpp:169-198 | whatever the server answers, the bytes of the new cache fit into the estimate made before the first request, and so into the reserved blocks, given that a dummy is no longer than its rendering |
| SyncSpace.EstimateIsReached | src/rendered_cache_file.cpp:169-198 | the estimate is the exact size of the file that holds the larger of rendering and cached entry for each id |
| SyncSpace.FileReadBack | src/rendered_cache_file.cpp:204-291 | the file that a run leaves behind, cut to length or not, is read back as the new cache |
| CacheStream.OutputFile.Begin | src/rendered_cache_file.cpp:217-236 | whole blocks are reserved, the estimate rounded up, and the position is at the start again |
| CacheStream.OutputFile.Save | src/rendered_cache_file.cpp:280-285 | the bytes of the list overwrite the start of the file, the rest stays |
| CacheStream.OutputFile.Finalize | src/rendered_cache_file.cpp:239-256 | the file is cut at the write position if the file system does it |
| CacheStream.EstimateObjectsLoop | src/rendered_cache_file.cpp:169-198 | the two accumulating loops compute the estimate |
| CacheStream.LoadCacheFile | src/rendered_cache_file.cpp:120-146 | the stream reader returns what the function on bytes says, errors included |
| CacheReading.SaveRoundTrip | src/rendered_cache_file.cpp:40-167 | reading a saved list, whatever bytes follow, gives the list |
| CacheReading.TruncatedFileRejected | src/rendered_cache_file.cpp:40-75 | every proper prefix of a saved list is refused, never read as a shorter list |
| CacheLaws.DigitAt | src/rendered_cache_file.cpp:77-84 | byte number i of a number is its i-th digit to the base 256, the lowest first |
| CacheLaws.HeaderBytes | src/rendered_cache_file.cpp:34-36 | a file starts with DC FE DC FE CC DD EE FF and the version byte 01 |
| CacheLaws.RefusedBecause | src/rendered_cache_file.cpp:120-146 | for every file: it is of a bad format exactly if its first eight bytes are others, on which the caller relies (src/main.cpp:185), and of too high a version exactly if they are these and the next is above 1 |
| CacheLaws.AcceptedIff | src/rendered_cache_file.cpp:40-146 | a file is read if and only if it begins with the magic bytes, a version that is not too high and objects behind their number, each as length-prefixed strings; what is read are these objects, the last of each id |
| Pagination.QueryImpl | src/simplescim_scim_send.cpp:645-689 | the recursion appends to the list and sends exactly the requests of the function, for any answers |
| Pagination.AsksForTheNext | src/simplescim_scim_send.cpp:649-652 | whatever is answered, the index that a server reads in each request is one more than the number of resources received |
| Pagination.UrlRead | src/simplescim_scim_send.cpp:649-652 | a server that reads the digits behind the query finds the index that was meant; the first page is asked for without a query |
| Pagination.CollectsAllIff | src/simplescim_scim_send.cpp:673-688 | from a stable server, which answers each address with the page at the index it reads there, all n resources are collected in order with at most max(1, n) requests if no page asked for is empty; if one is, as many requests are sent as will be answered, and no answer is enough |
| Pagination.LastAnswerDecides | src/simplescim_scim_send.cpp:654-688 | all answers but the last are pages; a request that failed, another code than 200, a body that is no list response or one without resources makes the query that error, and without one it ends only when nothing is there or all announced resources are received |
| ServerListing.GetAllObjectsFromScimServer | src/scim.cpp:512-541 | the listing is gathered from each handled endpoint once; any failed request or missing id fails it |
| ServerListing.ListingFailsIff | src/scim.cpp:526-538 | a listing is had if and only if every endpoint can be queried and every resource it gives has an id |
| ServerListing.ListingIsExact | src/scim.cpp:512-541 | from endpoints that page through what they hold, the listing is exactly the one the rebuild theorems assume |
| TemplateParser.Parser.Parse | src/scim_json_parse.cpp:408-441 | the main loop, on any template, gives what the step relation gives; it terminates because every step lowers the potential |
| TemplateParser.Parser.ParseReplacement | src/scim_json_parse.cpp:443-513 | one replacement is one step of the relation: a variable, a switch, the start or the end of a loop |
| TemplateParser.Parser.IterStart | src/scim_json_parse.cpp:570-657 | the loop is pushed with its bindings, or its body skipped when no list has a value |
| TemplateParser.Parser.IterEnd | src/scim_json_parse.cpp:515-551 | the cursor jumps back for the next iteration, or the loop is popped |
| TemplateParser.Parser.SkipIter | src/scim_json_parse.cpp:553-568 | the search for the matching end tag over nested loops |
| TemplateParser.Parser.ReplacementConditional | src/scim_json_parse.cpp:659-777 | cases up to the default are read, and the first that matches is written |
| TemplateParser.Parser.Value | src/scim_json_parse.cpp:867-919 | the loop over the frames does the lookup that `TemplateLaws.LookupIs` describes |
| TemplateLaws.LookupIs | src/scim_json_parse.cpp:867-919 | a loop variable is the element of its list at the iteration of the innermost frame that binds it, empty past the end, and has no value exactly if no frame binds it; a plain one is the first value of its attribute |
| TemplateTermination.StepLowers | src/scim_json_parse.cpp:408-657 | on every template, malformed or not, every step that does not fail strictly lowers the weighted potential of frames and remaining input, and leaves the cursor inside the text |
| TemplateMeaning.LoopBinds | src/scim_json_parse.cpp:593-640 | in the meaning of a loop each variable stands for its attribute's values, the first of equal variables winning |
| TemplateMeaning.LoopRunsToTheLongest | src/scim_json_parse.cpp:622-641 | the number of iterations is the length of the longest list |
| TemplateRefinement.NodesRun | src/scim_json_parse.cpp:443-657 | inside any loops, the interpreter runs over printed nodes by adding their meaning to the output and restoring the stack, and fails exactly when they have none |
| TemplateSkipping.SkipNodes | src/scim_json_parse.cpp:553-568 | skipping passes over whole nodes, so that the end tag found is the loop's own |
| TemplateRefinement.InterpreterCorrect | src/scim_json_parse.cpp:408-441 | for every template of the grammar, with any white space where the parser allows it, and every object, interpreting the printed template gives exactly its denotational expansion, or fails exactly when that has no value |
| TemplateLaws.VariableLaw | src/scim_json_parse.cpp:443-513 | a variable expands to the first value of its attribute, escaped unless a bar turns the default around, with any white space in it; without a value the expansion fails |
| TemplateLaws.SwitchLaw | src/scim_json_parse.cpp:659-777 | a switch expands to the value of the first case that fits, to the default if none does, and fails without a value to switch on |
| TemplateLaws.LoopLaw | src/scim_json_parse.cpp:570-657 | a loop over one attribute expands to its values one after the other, to nothing without any |
| TemplateLaws.ParallelLaw | src/scim_json_parse.cpp:593-657 | a loop over two attributes goes through both side by side to the end of the longer one, the shorter one filled up with empty values |
| TemplateLaws.ShadowLaw | src/scim_json_parse.cpp:873-890 | the inner of two loops over the same variable wins |
| TemplateLaws.StrayEndRefused | src/scim_json_parse.cpp:515-535 | an end tag outside every loop is refused, whatever follows |
| TemplateLaws.UnclosedLoopRefused | src/scim_json_parse.cpp:428-568 | a loop without its end tag is refused, with iterations or without |
| TemplateLaws.BadHeadRefused | src/scim_json_parse.cpp:570-620 | so is a loop with another number of attributes than of variables, or with more than a hundred variables |
| TemplateParser.ScimJsonParse | src/scim_json_parse.cpp:1003-1015 | the expansion without trailing commas, or the empty text for an error |
| JsonText.JsonStringEscape | src/scim_json_parse.cpp:48-70 | the loop computes the escaped text |
| JsonText.EscapeRoundTrip | src/scim_json_parse.cpp:48-70 | a JSON reader (section 7 of RFC 8259) gets back exactly the value that was escaped |
| JsonText.EscapeIsShortest | src/scim_json_parse.cpp:48-70 | no JSON text for a value is shorter than the escaped one, so nothing is escaped without need |
| JsonText.RemoveTrailingCommas | src/scim_json_parse.cpp:78-119 | the in-place pass blanks a position if and only if it is a comma outside string literals whose next visible character is a closing bracket, and changes nothing else |
| JsonText.CommaLaw | src/scim_json_parse.cpp:104-117 | a comma outside strings is blanked if and only if a closing bracket or brace stands behind it and any white space; every other character stays |
| JsonText.LeftOver | src/scim_json_parse.cpp:78-119 | after one pass the trailing commas are exactly those that stood before a trailing comma |
| JsonText.OnePassIsEnoughIff | src/scim_json_parse.cpp:78-119 | no trailing comma remains, and a second pass changes nothing, if and only if no comma stands directly before a trailing one |
| JsonText.ExpansionUntouched | src/scim_json_parse.cpp:261-283 | an escaped value inside a string literal keeps the scanner inside it, passes the pass unchanged and is unescaped to the value |
| Splitter.JsonArraySplitter.Write | src/external_process_load.cpp:141-205 | one write takes the state as the step function does, character by character; which texts that accepts is `SplitterAccepted.AcceptedIff` |
| Splitter.ChunksDoNotMatter | src/external_process_load.cpp:141-205 | for any input, any partition into writes gives the same inner writes and the same state |
| Splitter.ReachableConsistent | src/external_process_load.cpp:141-205 | after any input, between objects the buffer is empty and no string open; inside one, depth and string mode are those of the buffered text |
| Splitter.OnlyWholeObjects | src/external_process_load.cpp:195-203 | whatever the input, each text passed on goes from an opening brace to the one that closes it |
| SplitterAccepted.AcceptedIff | src/external_process_load.cpp:141-205 | any text, fed in any pieces, is not refused if and only if it is the beginning of a stream of whole objects with white space between them, or of an array of such with white space and commas, after whose end anything may come |
| SplitterAccepted.ShapeRead | src/external_process_load.cpp:162-203 | passed on is then exactly each whole object, in order; an object is open exactly if one is begun |
| SplitterAccepted.LoadedIff | src/external_process_load.cpp:228-235 | a load goes on if and only if the text has such a shape and ends between objects |
| SplitterStreams.ObjectPassedOn | src/external_process_load.cpp:162-203 | the text of any JSON object, with nesting, strings and escapes, is passed on as one |
| SplitterStreams.ArraySplit | src/external_process_load.cpp:141-205 | an array of objects, with any white space and anything behind it, fed in any pieces: the sink gets exactly the objects' texts in order, with neither failed nor incomplete set |
| SplitterStreams.StreamSplit | src/external_process_load.cpp:141-205 | the same for newline-delimited or concatenated objects |
| SplitterCuts.ArrayCutIff | src/external_process_load.cpp:228-235 | an array that is cut anywhere, fed in any pieces, is found incomplete if and only if the cut is strictly inside the text of one of its objects; passed on by then are exactly the objects that end before the cut, and nothing counts as failed |
| SplitterCuts.StreamCutIff | src/external_process_load.hpp:86-87 | the same for newline-delimited or concatenated objects |
| SplitterCuts.ArrayObjectStands | src/external_process_load.cpp:162-203 | the positions that these two speak of are those of the objects' texts |
| Csv.Stream.ParseEscapedField | src/csv_file.cpp:86-109 | the stream loop reads a quoted field, or reports its missing end |
| Csv.Stream.ParseNonEscapedField | src/csv_file.cpp:74-84 | the stream loop reads a plain field, or reports a quote in it |
| Csv.Stream.ParseRecord | src/csv_file.cpp:122-139 | a record with its line ending, or the error met first |
| Csv.CsvFile.Load | src/csv_file.cpp:141-168 | header and rows of a whole file, or the error with its record number |
| CsvAccepted.RoundTrip | src/csv_file.cpp:46-168 | any way of writing rows of one width (quoting per field, LF or CRLF per line, last line ending or not) is read as exactly the header and rows; only a byte order mark is gone |
| CsvAccepted.AcceptedIff | src/csv_file.cpp:52-168 | a text is accepted if and only if it is such a way of writing |
| CsvAccepted.WrongWidthRefused | src/csv_file.cpp:155-166 | the first record of another width is refused under its number |
| CsvRefused.FaultRefused | src/csv_file.cpp:52-168 | behind records that are as they should be, a quote in a plain value, a quoted value without end, a character behind a closing quote, a lone carriage return or another number of fields makes the load fail with its own error, under the number of the record or as one of the header |
| CsvRefused.RefusedIff | src/csv_file.cpp:52-168 | a file is refused if and only if it is written like that |
| CsvAccepted.BomStripped | src/csv_file.cpp:44-50 | a byte order mark before an unquoted first header field makes no difference |
| CsvAccepted.BomBeforeQuoteRefused | src/csv_file.cpp:144-154 | before a quoted one it is an unexpected quote |
| CsvAccepted.RowsAsWideAsHeader | src/csv_file.cpp:155-161 | all rows of an accepted file are as wide as the header |
| Config.ConfigParser.RuleValue | src/config_file_parser.cpp:131-197 | the value, the line and column after it, or the place of the missing end |
| Config.ConfigParser.RuleAssign | src/config_file_parser.cpp:199-235 | one assignment is inserted, or the error with its place |
| Config.ConfigParser.Parse | src/config_file_parser.cpp:56-91 | for any input the loop ends, with the insertions and the error that the function on texts gives |
| ConfigPlaces.PlacesAreRight | src/config_file_parser.cpp:93-105 | without lone carriage returns the counter is the number of line feeds consumed, the column that of the cursor, and an error names the place of the character it complains about |
| ConfigPlaces.PlaceIsRightIff | src/config_file_parser.cpp:93-105 | for every input, accepted or not: the line reported at the end or with an error is the number of line feeds before the place plus the number of lines that ended in a carriage return alone; line and column are right if and only if none did |
| ConfigRows.PlaceIsRightIffNoCrRow | src/config_file_parser.cpp:56-105 | for every accepted text, written as rows: they are right at the end if and only if no row ends in a carriage return alone, whatever a multi-line value holds |
| ConfigAccepted.RoundTrip | src/config_file_parser.cpp:56-235 | for any rows of assignments (multi-line or single-line values), blanks, comments and line endings, the inserter gets exactly the names and values in order |
| ConfigAccepted.AcceptedIff | src/config_file_parser.cpp:56-263 | wherever the line counter starts, a text is accepted if and only if it is written as such rows |
| ConfigRefused.FaultRefused | src/config_file_parser.cpp:56-235 | behind rows that are as they should be, a missing equals sign, a multi-line value without end or something after a row's content ends the parse with its own error at its own place, and exactly the assignments before it have been inserted |
| ConfigRefused.RefusedIff | src/config_file_parser.cpp:56-263 | a text is refused if and only if it is written like that |
| ObjectLists.ObjectIndex.Add | src/model/object_list.cpp:31-36 | the object is appended under each of its values, as often as it has it |
| ObjectLists.ObjectIndex.Remove | src/model/object_list.cpp:38-52 | erasing while iterating takes out every occurrence under its values |
| ObjectLists.ScanCounts | src/model/object_list.cpp:54-68 | a linear scan meets an object once for each uid that holds it and each time it has the value |
| ObjectLists.AddAgrees | src/model/object_list.cpp:79-86 | adding under a new uid keeps index and scan in agreement |
| ObjectLists.RemoveAgreesIff | src/model/object_list.cpp:88-97 | removing keeps them in agreement if and only if the object lacks the value or no other uid holds it |
| ObjectLists.ObjectList.GetObjectsForAttribute | src/model/object_list.cpp:54-68 | the result is, as a multiset, that of a linear scan of the current map, whether the index existed or is built now; then it is kept, and no index is built twice |
| ObjectLists.ObjectList.GetObjectForAttribute | src/model/object_list.cpp:70-77 | some object with the value, and none exactly if there is none |
| ObjectLists.ObjectList.AddObject | src/model/object_list.cpp:79-86 | the map is updated and every index still agrees with a scan |
| ObjectLists.ObjectList.Remove | src/model/object_list.cpp:88-97 | the same for removal |
| ObjectLists.ObjectList.Merge | src/model/object_list.cpp:99-102 | the same for the union of two lists |
| ObjectLists.ObjectList.Clear | src/model/object_list.hpp:83-86 | no objects and no indices are left |
| ObjectLists.ObjectList.FindIndex | src/model/object_list.hpp:63-70 | an index over the attribute, and none exactly if there is none |

## Left out

- The HTTP layer, TLS, LDAP, SQL, plugins, child processes, file locks and the retried rename: only their outcomes appear, as parameters.
- Regular expressions: whether one matches is a parameter of the template's environment.
- The line and column of the template parser, which only appear in messages; statistics, audit log, status output and printing.
- ScimActions.Actions.Perform: does not model a type without configured endpoint, the bytes of a file that could not be written to the end, or a crash in the middle of a run; the types in the send order are taken to be without repeats and already filtered by the plugins.
- ScimSender.Sender.RegisterTimeout: does not model an abort set from outside a request; the requests of the listing before a rebuild do not count towards the timeouts of the run.
- SyncTruth.RunKeepsTruth: takes a delete that fails not to have been applied, and a 409 or 404 to be said by a server that has or lacks the id; otherwise the cache cannot be truthful about what the client was never told.
- SyncSpace.SpaceBound: takes a dummy to be no longer than the rendering it replaces, as src/utility/utils.hpp:139-142 does.
- CacheReading.SaveRoundTrip: for lengths below 2^64; characters stand for bytes throughout.
- CacheLaws.AcceptedIff: for texts of bytes, as files are; a length that cannot be allocated counts as one that cannot be read.
- TemplateParser.Parser.Value: models the lookup that is meant, in the innermost frame that binds the name; the code dereferences the result of a search before testing it (src/scim_json_parse.cpp:880-881).
- TemplateRefinement.InterpreterCorrect: with no white space inside `${for` and `${end}`, which skipping would not recognise, nothing spelled `${for` that is no loop, no bar before a keyword, and no `${` inside the strings of a switch. Of other templates it is proved that the interpreter ends, and that the class does what the step relation says.
- TemplateLaws.LoopLaw: single spaces in the head of the loop; other white space is covered by `TemplateRefinement.InterpreterCorrect`.
- Pagination.QueryImpl: a getter that answers for ever is seen through all its finite beginnings, after which every request fails; a body counts as a list response, or not, without being parsed.
- CsvAccepted.AcceptedIff: for a separator and a quote that differ and end no record.
- ObjectLists.ObjectList.AddObject: takes objects not to change once they are in a list, and no two uids to hold the same object; copying a list, which shares its indices, is not modelled.
- ObjectLists.ObjectList.Merge: for another list than the list itself; with itself, the loop would go on from an entry that `remove` has just erased (src/model/object_list.cpp:88-102), which C++ leaves undefined.
- The old format of the cache file, the generation of uuids, the load limiters, the thresholds and the command line, except forced updates and creates: no hard property.
