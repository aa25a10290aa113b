# mythtv_client in Dafny

A model of `mythtv_client`, a small Python client for the MythTV backend's
JSON services API. It is written in Dafny. The model covers the following:

- **The entity layer** (`models.Base` and its subclasses `Program`, `Channel`,
  `ProgramGuide`, `RecRule`, `RecRuleList`):
  - An entity wraps one or more backing dictionaries or entities, named by
    `attr_key` / `attr_keys`.
  - The constructor binds positional and keyword arguments to those names,
    with its two `TypeError` cases.
  - Attribute lookup finds the class's own attributes first, then walks the
    backing sources in declared order.
  - A missing source ends in Python's `RecursionError`.
- **Bit-flag decoding** (`Props.decode`, `VideoProps`) and the
  `RecordingType` enum, with its on/off classification and the filtering of
  template rules.
- **The program guide** (`ProgramGuide.programs` and `.search`):
  - Title matching that ignores ASCII case.
  - Duplicate removal, keyed on (title, start, end).
  - Picking the best duplicate: the HD one on the lowest channel number.
  - Python's stable sort by start time.
  - The truthy `limit` slice.
- **The API layer** (`api.py`):
  - The service/endpoint registry and attribute dispatch.
  - The request URL and verb.
  - Coercion of the response into the endpoint's model.
  - `AddRecordSchedule.record`, which reads a template rule, rewrites it and
    posts it.
- **The WSDL helper scripts**:
  - `scrape_wsdl.py`: the element-to-keyword-argument rendering and the
    printable validator.
  - `get_wsdl.py`: the WSDL URL, the whitespace tidying, and the recursive
    crawl of type imports.

## Environment parameters

These are passed to the model as parameters:

- the HTTP transport (`Api.Transport`);
- the `vtypes` coercions and `urlencode` (`Api.Codec`);
- for the crawler, the XML fetch and parse (`GetWsdl.World`).

## Modules

| module | file | models |
|---|---|---|
| `Results` | results.dfy | `Option`, `Result`, and the exceptions the client raises |
| `Text` | text.dfy | ASCII lower/upper case, `str.capitalize`, `in`, `<` on strings, `join`/`split`/`splitlines`, `rstrip` |
| `Seqs` | seqs.dfy | filtering, flattening, and the stable sort (`sorted`) |
| `Props` | props.dfy | `Props`, `VideoProps` |
| `Recording` | recording.dfy | `RecordingType`, `non_template_rec_rules` |
| `Entities` | entities.dfy | `Base`, `Channel.programs`, `ProgramGuide.channels/programs`, `RecRuleList` |
| `Guide` | guide.dfy | `ProgramGuide.search` on typed programs |
| `Validators` | validators.dfy | validator field lists, `remove`/`add`, `RecRule.validator` |
| `Api` | api.dfy | `API`, `Endpoint`, the three endpoints, `record` |
| `ScrapeWsdl` | scrape.dfy | `scrape_wsdl.py` |
| `GetWsdl` | getwsdl.dfy | `get_wsdl.py` |

## Model

| member | source | states |
|---|---|---|
| Props.BitAndPow2 | mythtv_client/models.py:31 | `props & 2**k` is non-zero exactly when bit k of `props` is set, including for negative `props` (two's complement) |
| Props.Attrs | mythtv_client/models.py:22-23 | `_attrs` is the subsequence of `dir` made of the names not starting with `_` and not `decode`: every such name is kept, as often as `dir` lists it, and no other |
| Props.PublicWhenFirstNotUnderscore | mythtv_client/models.py:22-23 | a name is in `_attrs` iff it is in `dir`, does not start with `_` and is not `decode` |
| Props.VideoPropsAttrs | mythtv_client/models.py:20-23 | over `dir(VideoProps)` (the `VID_` names, then names starting with `_`, then `decode`), `_attrs` is exactly the six `VID_` names in order |
| Props.LabelFails | mythtv_client/models.py:30 | `name.split('_', 1)[1]` raises `IndexError` exactly when the name has no `_` |
| Props.DecodeSpec | mythtv_client/models.py:26-33 | `decode` raises `IndexError` iff some constant name has no `_`; otherwise every label it reports belongs to a flag whose value shares a bit with `props`, and every such flag's label is reported |
| Props.DecodeSucceeds | mythtv_client/models.py:26-33 | `decode` succeeds when every constant name contains `_` |
| Props.DecodeReports | mythtv_client/models.py:26-33 | with distinct labels, a flag's label is reported iff `props & value` is non-zero |
| Props.DecodeWithin | mythtv_client/models.py:26-33 | `decode` reports only labels of flags with non-zero values |
| Props.VideoPropsLabelTable | mythtv_client/models.py:75-81 | in `dir()` order, the six `VID_*` constants decode to the labels `1080`, `720`, `avc`, `hdtv`, `unknown`, `widescreen` |
| Props.VideoPropsDecodes | mythtv_client/models.py:181-183 | `video_props_list` never raises for any integer |
| Props.VideoPropsBit | mythtv_client/models.py:75-81 | a single-bit `VideoProps` flag is reported iff its bit is set |
| Props.VideoPropsBits | mythtv_client/models.py:75-81 | `hdtv`, `widescreen`, `avc`, `720` and `1080` are reported iff bits 0 to 4 are set |
| Props.VideoPropsExact | mythtv_client/models.py:75-81 | `decode(props)` is exactly the set of labels of the five bits set in `props` |
| Props.VideoPropsOfOne | mythtv_client/models.py:26-33 | `VideoProps.decode(1)` is `{"hdtv"}` |
| Props.VideoPropsRange | mythtv_client/models.py:75-81 | only those five labels can be reported; `unknown` (value 0) never is |
| Props.HdtvIffOdd | mythtv_client/models.py:181-183 | `hdtv` is in `video_props_list` iff `VideoProps` is odd |
| Recording.RawStringRoundTrip | mythtv_client/models.py:36-50 | looking a member up by its raw string gives back that member, and only member values are accepted |
| Recording.IsOnExactly | mythtv_client/models.py:52-68 | a type is not on iff it is override, template or not-recording; five types are on |
| Recording.Difference | mythtv_client/models.py:71-72 | `set - x` fails iff `x` is a method object; on a set it keeps exactly the members that are not on |
| Recording.OffAsWrittenRaises | mythtv_client/models.py:71-72 | `off()` as written raises `TypeError` |
| Recording.OffComplement | mythtv_client/models.py:71-72 | corrected `off()`: a type is off iff it is not on; the off types are the three non-recording ones; on and off partition the enum |
| Recording.NonTemplateRules | mythtv_client/models.py:339-341 | the yielded rules are the rules whose type is on, each as often as listed, in list order (a subsequence, all on, every on rule kept, equal multiplicities) |
| Recording.NonTemplateRulesIdempotent | mythtv_client/models.py:339-341 | filtering the filtered rules again changes nothing |
| Recording.NonTemplateRulesExtremes | mythtv_client/models.py:339-341 | an all-on list is yielded whole; an all-off list yields nothing |
| Entities.GetAttrKeysPrecedence | mythtv_client/models.py:109-114 | non-empty `attr_keys` wins over `attr_key`; `ValueError` iff both are falsy; the keys returned are never empty |
| Entities.Zip | mythtv_client/models.py:125-126 | the positional arguments are bound to exactly the first `len(args)` keys |
| Entities.ZipBinds | mythtv_client/models.py:125-126 | each positional argument lands under its key unless a later argument has the same key |
| Entities.ConstructArity | mythtv_client/models.py:116-123 | a wrong argument count raises `TypeError` with the found and expected counts |
| Entities.ConstructRepeats | mythtv_client/models.py:124-130 | with the right count, construction fails iff a key bound positionally is also given by keyword |
| Entities.ConstructKeys | mythtv_client/models.py:124-136 | a constructed instance holds exactly the positional keys plus the keywords |
| Entities.ConstructBindsPositional | mythtv_client/models.py:124-136 | with distinct keys, the i-th positional argument is the attribute named by the i-th key |
| Entities.ConstructPositional | mythtv_client/models.py:116-136 | a full positional call succeeds and binds the zipped arguments |
| Entities.ScanFirstResolves | mythtv_client/models.py:91-99 | the lookup returns the value of the first source that does not pass over the name, in declared order |
| Entities.ScanNoneResolves | mythtv_client/models.py:91-100 | when every source passes over the name, the lookup raises `AttributeError` for that name |
| Entities.FirstSourceMissing | mythtv_client/models.py:91-93 | when the first source is not set on the instance, the lookup re-enters itself and ends in `RecursionError` |
| Entities.NewEntitiesConstruct | mythtv_client/models.py:116-136 | `Channel(d)`, `Program(d, ch)` and `RecRule(d)` construct successfully and bind the declared sources |
| Entities.ChannelLookup | mythtv_client/models.py:186-201 | a channel attribute is a class property, then `_channel`, then a class attribute, then the dictionary entry; any other name raises `AttributeError` |
| Entities.ProgramFallsBackToChannel | mythtv_client/models.py:139-142 | a program attribute is a class property, `_program`, `channel` or a class attribute; then its own dictionary entry; otherwise exactly what the channel answers |
| Entities.ChannelPrograms | mythtv_client/models.py:198-201 | every yielded program is bound to the channel that yields it |
| Entities.ChannelProgramsFromList | mythtv_client/models.py:198-201 | the channel yields one `Program(pr_dict, channel)` per list entry, in order |
| Entities.GuideChannels | mythtv_client/models.py:224-227 | every yielded channel is a `Channel` |
| Entities.GuideChannelsFromList | mythtv_client/models.py:224-227 | a guide built by keyword yields one `Channel(ch_dict)` per entry of `_guide['Channels']`, in order, each a successful construction |
| Entities.ProgramsOfFlatten | mythtv_client/models.py:229-232 | the guide's programs exist iff every channel's do, and are the channels' programs concatenated in channel order |
| Entities.ProgramsOfChannels | mythtv_client/models.py:229-232 | every program of the guide is bound to one of its channels |
| Entities.AllRecRules | mythtv_client/models.py:335-337 | every yielded rule is a `RecRule` |
| Entities.RecRuleListEntry | mythtv_client/models.py:322-333 | a rule list's `RecRules` attribute is its dictionary's entry |
| Entities.AllRecRulesFromList | mythtv_client/models.py:335-337 | a rule list built by keyword yields one `RecRule(rr)` per `RecRules` entry, in order, each a successful construction |
| Entities.OnRules | mythtv_client/models.py:339-341 | every yielded rule's `Type` reads as a type that is on |
| Entities.OnRulesFilter | mythtv_client/models.py:339-344 | iteration succeeds iff every rule's `Type` can be read; it then equals the recording-type filter over the rules |
| Guide.ListingsMember | mythtv_client/models.py:229-232 | a listing comes out of the guide iff it is a program of one of the channels, paired with that channel's number |
| Guide.IsHdOdd | mythtv_client/models.py:247 | a program is HD iff its `VideoProps` is odd |
| Guide.ChanLeTotalPreorder | mythtv_client/models.py:245 | ordering by channel number is a total preorder, so the sort is well defined |
| Guide.StartLeTotalPreorder | mythtv_client/models.py:260 | ordering by start-time string is a total preorder |
| Guide.FirstWhereFilter | mythtv_client/models.py:246-248 | the loop's early `return` gives the head of the filtered list, or nothing |
| Guide.PickBestIsFirstMin | mythtv_client/models.py:243-249 | `_pick_best` is the earliest lowest-channel HD duplicate, or else the earliest lowest-channel duplicate |
| Guide.PickBestSpec | mythtv_client/models.py:243-249 | the pick is a duplicate; it is HD iff some duplicate is; no duplicate of the same HD class has a lower channel number |
| Guide.KeysInOrderSpec | mythtv_client/models.py:251-256 | the keys of `keyed`, in insertion order, are distinct and are exactly the matches' keys |
| Guide.GroupSpec | mythtv_client/models.py:251-253 | `keyed[k]` holds only matches with key `k`, and is non-empty for every key |
| Guide.DedupAt | mythtv_client/models.py:255-258 | the i-th de-duplicated result is `_pick_best` of the i-th key's group |
| Guide.DedupSpec | mythtv_client/models.py:240-258 | de-duplication keeps one pick per key: the keys are pairwise distinct and every match's key is represented |
| Guide.PrefixToSpec | mythtv_client/models.py:262 | `found[:limit]` is a prefix; whole when `limit >= len`; of length `limit` otherwise; `len + limit` (floored at 0) for a negative limit |
| Guide.MatchesOfSpec | mythtv_client/models.py:235-238 | a listing is a match iff it is a guide listing whose title contains the term (ASCII case folded); matches keep the guide's order and multiplicities |
| Guide.TruncateSorted | mythtv_client/models.py:260-262 | the results are sorted by start time and each is one of the kept matches |
| Guide.SearchMatchesSorted | mythtv_client/models.py:234-263 | every result is a matching guide program, and the results are sorted by start time |
| Guide.SearchDedups | mythtv_client/models.py:240-260 | with `remove_dups`, no two results share (title, start, end), and each result is the best of its group |
| Guide.SearchComplete | mythtv_client/models.py:260-263 | with no or zero limit, the results are a permutation of all matches (without de-duplication), or cover every match's key (with it) |
| Guide.SearchLimit | mythtv_client/models.py:261-262 | a positive limit keeps exactly the first `limit` unlimited results |
| Guide.SearchNoMatch | mythtv_client/models.py:235-238 | with no matching title, the search returns nothing |
| Seqs.SortPermutes | mythtv_client/models.py:260 | `sorted` returns a permutation of its input |
| Seqs.SortSorted | mythtv_client/models.py:260 | under a total preorder, `sorted` returns an ordered list |
| Seqs.SortTies | mythtv_client/models.py:245 | input whose elements are all tied comes out unchanged |
| Seqs.SortStable | mythtv_client/models.py:260 | `sorted` is stable: for any key, the elements tied with it come out in their input order (so search results sharing a start time keep their guide order) |
| Seqs.SortHead | mythtv_client/models.py:245-249 | the stable sort's head is the earliest minimum |
| Validators.RemoveSpec | mythtv_client/api.py:174-181 | `remove` fails iff some name is not declared, reporting the first such; otherwise it drops exactly the named fields and keeps every other field, unchanged and in order |
| Validators.AddSpec | mythtv_client/api.py:182-185 | `add` fails iff an added name is already declared, reporting the first such; otherwise the old fields stay first, unchanged, and the added ones follow |
| Validators.AddThenRemove | mythtv_client/api.py:174-185 | removing the names just added gives back the original validator |
| Validators.RecRuleFields | mythtv_client/models.py:269-316 | every name `AddRecordSchedule` removes, and `Type` and `Filter`, is a `RecRule` field; `Station` and `Subtitle` are not |
| Validators.AddRecordScheduleDerives | mythtv_client/api.py:173-186 | the `remove(...).add(...)` chain in `AddRecordSchedule`'s class body does not fail |
| Validators.RemoveAddNames | mythtv_client/api.py:173-186 | when both steps succeed, remove-then-add declares the names not removed plus the names added |
| Validators.AddedNames | mythtv_client/api.py:182-185 | the added fields are `Station` and `Subtitle`, neither of them removed |
| Validators.AddRecordScheduleNames | mythtv_client/api.py:173-186 | `AddRecordSchedule.args` is the `RecRule` fields less seven, plus two, and contains no removed name |
| Api.Register | mythtv_client/api.py:80-87 | registering adds the service, maps the endpoint to the class, keeps the service's other endpoints and leaves every other entry unchanged |
| Api.EndpointOfSpec | mythtv_client/api.py:32-48 | an unregistered service raises "Unknown service", an endpoint not under a registered service raises "Unknown endpoint", and otherwise the registered class is found |
| Api.EndpointOfRegister | mythtv_client/api.py:32-48 | `api.S.E` after registering finds the class for its own (service, endpoint) and the earlier answer otherwise |
| Api.RegisterOverwrites | mythtv_client/api.py:84-86 | registering the same (service, endpoint) again replaces the earlier class |
| Api.RegisterThree | mythtv_client/api.py:80-87 | three registrations over two services give exactly those services, find all three classes, and reject any other service |
| Api.RegisteredNames | mythtv_client/api.py:134-168 | the three endpoint classes declare `Guide/GetProgramGuide`, `Dvr/GetRecordSchedule` and `Dvr/AddRecordSchedule` |
| Api.RegisteredEndpoints | mythtv_client/api.py:134-168 | the module-level registry resolves all three endpoints to their classes |
| Api.RegisteredServices | mythtv_client/api.py:43-48 | the registry holds exactly `Guide` and `Dvr`; any other service raises "Unknown service" |
| Api.AttributeGating | mythtv_client/api.py:95-117 | `get` exists iff the endpoint is not a POST, `post` iff it is, `record` iff the class defines it; the endpoint's own members are found; every other attribute raises |
| Api.DispatchActions | mythtv_client/api.py:115-117 | calling a read endpoint requests with the keywords; `get` on a POST endpoint raises; a `record` endpoint records the program, passed positionally or as `program=` |
| Api.RegisteredActions | mythtv_client/api.py:165-170 | the two reads call `get` and are not POST; `AddRecordSchedule` calls `record` and is a POST |
| Api.DispatchRejectsPositional | mythtv_client/api.py:109-110 | the wrapped `get`/`post` takes keywords only; positional arguments raise `TypeError` |
| Api.RequestUrlParts | mythtv_client/api.py:52-62 | split at `/`, the URL gives back the base's pieces, the service, the endpoint and, for a read, `?query` |
| Api.ResponseKwargs | mythtv_client/api.py:127-130 | the constructor keywords are exactly the declared init keywords |
| Api.ResponseKwargsSpec | mythtv_client/api.py:128-130 | each keyword not set again later holds its response key's coerced value, which must exist |
| Api.ResponseKwargsMissing | mythtv_client/api.py:129-130 | a response key that is missing, or whose value its validator rejects, fails the read |
| Api.ResponseKwargsSucceeds | mythtv_client/api.py:128-130 | when every response key is present and coerces, the keywords are assembled |
| Api.RequestOutcome | mythtv_client/api.py:123-131 | every request sends the header `Accept: application/json`; a write posts the stringified arguments to `{url}/{service}/{endpoint}` and returns nothing; a read GETs and returns the model with exactly the coerced response keywords |
| Api.ProgramGuideRead | mythtv_client/api.py:134-145 | reading the guide yields a `ProgramGuide` whose `_guide` is the coerced `ProgramGuide` member |
| Api.DeleteAllSucceeds | mythtv_client/api.py:206-207 | with distinct keys, the `del` loop succeeds iff every key is present |
| Api.DeleteAllResult | mythtv_client/api.py:206-207 | a successful `del` loop leaves exactly the other entries, unchanged |
| Api.DeleteAllFailure | mythtv_client/api.py:206-207 | a failed `del` loop raises `KeyError` for the first missing key |
| Api.RecordRemovesValidatorNames | mythtv_client/api.py:197-205 | the seven deleted keys are distinct and are exactly the seven names the write's validator removes |
| Api.SetKeysNotRemoved | mythtv_client/api.py:193-205 | none of the four keys set is deleted afterwards |
| Api.RecordRewriteSucceeds | mythtv_client/api.py:193-207 | the rewrite succeeds iff the rule has all seven deleted keys |
| Api.RecordRewriteResult | mythtv_client/api.py:193-207 | the rewritten rule is the old keys less seven plus four; `Type` is `Single Record`, `Filter` is `1024`, `Station`/`Subtitle` are copied from `CallSign`/`SubTitle`, and the rest is unchanged |
| Api.RecordRewriteFailure | mythtv_client/api.py:195-207 | a failed rewrite raises `KeyError` for `CallSign`, then `SubTitle`, then the first deleted key the rule lacks, in deletion order (`SubTitle`, `LastRecorded`, `NextRecording`, `AverageDelay`, `CallSign`, `Id`, `LastDeleted`) |
| Api.SetKeysSplit | mythtv_client/api.py:182-196 | the keys set are `Type`, `Filter` and the two names the write's validator adds |
| Api.RecordRewriteFitsValidator | mythtv_client/api.py:173-207 | rewriting a rule with `RecRule`'s fields gives exactly the fields `AddRecordSchedule.args` declares |
| Api.RecordArgsFromTemplate | mythtv_client/api.py:188-207 | `record` looks up the schedule read before it reads the program's `StartTime` and `ChanId`, fetches the template with them, and its arguments are the rewrite of that rule |
| Api.ScheduleCallRequests | mythtv_client/api.py:188-191 | calling an endpoint with only `StartTime` and `ChanId` keywords either requests with them or fails; on a `record` endpoint it raises `TypeError`, so `record` never runs from the schedule read |
| Api.FetchTemplateOf | mythtv_client/api.py:189-192 | given the registry's schedule read, the template fetched is the returned rule's `_recrule` mapping |
| Api.RecordCallPosts | mythtv_client/api.py:188-208 | a successful `record` call returns nothing, having posted the stringified rewritten rule to `{url}/{service}/{endpoint}` |
| Api.RecordPostsValidatorFields | mythtv_client/api.py:165-208 | `record` on the real registry posts exactly the fields `AddRecordSchedule.args` declares |
| ScrapeWsdl.TypeMappingSpec | wsdl/scrape_wsdl.py:7-16 | the mapping is defined on exactly seven XSD types, each naming a scalar class; any other type is `V???`, which is no class name |
| ScrapeWsdl.ModelName | wsdl/scrape_wsdl.py:29 | `split(':', 1)[1]` on a `tns:` type is the text after the prefix |
| ScrapeWsdl.KwargListText | wsdl/scrape_wsdl.py:25-32 | the sorted, joined keyword list is `required=False` before `validator=M.validator`, each present iff optional or `tns:` |
| ScrapeWsdl.ElementToKwargSpec | wsdl/scrape_wsdl.py:20-32 | rendering succeeds iff `type` and `name` are present (`KeyError` for `type` first); the text is `name=Class(kwargs)`, with `VValidatorDict` for `tns:` types |
| ScrapeWsdl.NillableIsOptional | wsdl/scrape_wsdl.py:21-27 | any non-empty `nillable`, even `"false"`, gives `(required=False)`; otherwise `()` |
| ScrapeWsdl.KwargLinesSpec | wsdl/scrape_wsdl.py:46 | the lines exist iff every element renders; line i is the i-th rendering indented and comma-terminated; otherwise the first failure is raised |
| ScrapeWsdl.KwargLinesAvoidNewline | wsdl/scrape_wsdl.py:46 | attribute lines contain no newline when names and types contain none |
| ScrapeWsdl.PrintableValidatorLines | wsdl/scrape_wsdl.py:45-52 | split at newlines, the output is the `# Type:` header, `Validator(`, one line per element and `)` |
| GetWsdl.Decimal | wsdl/get_wsdl.py:65 | `str(port)` is a non-empty string of decimal digits denoting the port, with no leading zero unless the port is 0 |
| GetWsdl.WsdlUrlParts | wsdl/get_wsdl.py:63-66 | the URL splits into `http:`, empty, `domain:port`, the capitalized service and `wsdl`; the path does not change when the service is capitalized first |
| GetWsdl.ServicePaths | wsdl/get_wsdl.py:10-19 | the `dvr` and `guide` services fetch `Dvr/wsdl` and `Guide/wsdl` |
| GetWsdl.Stripped | wsdl/get_wsdl.py:78 | each line is replaced by a prefix of itself that is empty or ends in a non-space, having dropped only trailing whitespace |
| GetWsdl.KeptLinesSpec | wsdl/get_wsdl.py:78-79 | the kept lines are the non-empty stripped lines, each as often as it occurs, in order; none is empty or ends in whitespace, and every non-blank line is kept |
| GetWsdl.KeptLinesIdempotent | wsdl/get_wsdl.py:78-79 | stripping and filtering kept lines again changes nothing |
| GetWsdl.TidyWsdlEnds | wsdl/get_wsdl.py:80 | the output ends with a newline; all-blank input gives just `"\n"` |
| GetWsdl.TidyWsdlLines | wsdl/get_wsdl.py:76-80 | split into lines, the output gives back the kept lines (or one empty line when none are kept) |
| GetWsdl.TidyWsdlIdempotent | wsdl/get_wsdl.py:76-80 | tidying tidied output gives the same text |
| GetWsdl.Locations | wsdl/get_wsdl.py:92-93 | the locations are read iff every import has a `schemaLocation`, and are then those values in order; otherwise `KeyError` for `schemaLocation` |
| GetWsdl.GetTypes | wsdl/get_wsdl.py:83-120 | an import without `schemaLocation` raises `KeyError`; otherwise the crawl only adds found types, returns exactly the newly found ones, and each is the document fetched from a URL of that type |
| GetWsdl.FetchAll | wsdl/get_wsdl.py:105-118 | as above, and every import whose type is given and whose fetch succeeds ends up found |
| GetWsdl.NothingNewNoFetch | wsdl/get_wsdl.py:106-109 | when every import is untyped or already found, nothing is fetched and nothing is returned |
| GetWsdl.NoTypedImports | wsdl/get_wsdl.py:92-103 | a document whose imports all have a location, none naming a type, yields no types |
| GetWsdl.FailedFetchSkipped | wsdl/get_wsdl.py:111-114 | a failed fetch is skipped, and the crawl goes on with the remaining imports |

## Left out

- Every place where the source prints goes unmodelled. That covers the diagnostics in `API._request` (`pprint` of arguments and content), `Cannot process for ...` in `type_from_url`, and the exception printed in `get_types`. These only write to stdout/stderr.
- HTTP (`requests`), `urlencode`, `urlparse`/`parse_qs`/`urlunparse`, `minidom` parsing and `toprettyxml`, and `get_xml_for_url` are function parameters (`Api.Transport`, `Api.Codec`, `GetWsdl.World`), not code. Their behaviour belongs to libraries outside the client.
- The command-line entry points, argument parsing and file reading/writing of both WSDL scripts are left out. They are I/O around the modelled functions.
- The `vtypes` library is not part of this model. A validator is its ordered field list (name, class, required). Defaults, `settable=False` and nested validators are not modelled. `to_strings`/`to_types` are the `Codec` parameters.
- `Base.__repr__` is left out because it only formats text.
- `Base.__lt__` is left out. As the classes stand, `sort_attr` is `None` (models.py:89), so `getattr(self, self.sort_attr)` raises `TypeError` before anything else. Only an instance given a string `sort_attr` would reach the undefined global `sort_attr` and raise `NameError`. Nothing in the client compares entities.
- GetWsdl.TidyWsdlLines: `Text.SplitLines` splits at `\n` only, so the lemma assumes that no line contains `\n`. Python's `splitlines` also breaks at `\r` (and `\r\n`), `\v`, `\f`, `\x1c`-`\x1e`, `\x85`, `\u2028` and `\u2029`. Lines holding one of those characters are not covered.
- GetWsdl.TidyWsdlIdempotent: the same restriction as `TidyWsdlLines`. The lemma covers only lines free of every line-break character `splitlines` recognises, beyond the `\n` the model splits at.
- GetWsdl.WsdlUrl: the port is a natural number. argparse's `int` accepts a negative `--port`, which `format` would render with a leading `-`. That case is not modelled.
- Entity lookup on a backing value that is neither a dict nor an entity treats the name as absent. In Python, `getattr` on a `str` or `list` can return one of their methods, and a dict's own methods (`keys`, `items`) can leak the same way.
- Iterating a `dict` or `str` where a list is expected is modelled as a failure (`NotAList`), not as Python's iteration over keys or characters.
- Guide.Search: runs on typed programs (channel number and `VideoProps` already integers). It does not model the `ValueError` that `int()` raises on a malformed `ChanNum` or `VideoProps`.
- Guide.Search: `keyed.values()` follows first-insertion order of the keys, which is how `defaultdict` iterates in Python 3.7 and later.
- GetWsdl.GetTypes: the `fuel` parameter stands in for Python's recursion limit. Running out of fuel gives `RecursionLimit` where Python would raise `RecursionError` after about 1000 nested calls.
- GetWsdl.FetchAll: works on the import URLs in document order, so a URL listed twice is visited twice. Python first collapses the list into a dict keyed by URL. The second visit finds its type already recorded and does nothing, so with a deterministic fetch the results agree.
- GetWsdl.ServicePaths: states the path only for the `dvr` and `guide` services. `WsdlUrlParts` covers every service generically.
- `get_attrs_from_complex_type`, `get_attrs_from_elements` and `get_complex_types_for_files` walk the XML DOM. The model takes each element's attribute map directly.
- Validators.Remove: `vtypes` is not part of this model. `remove` is modelled as failing with `FieldMissing` on the first name the validator does not declare. The exception class `vtypes` raises is not modelled.
- Validators.Add: `vtypes` is not part of this model. `add` is modelled as failing with `FieldExists` on the first added name the validator already declares. The exception class `vtypes` raises is not modelled.
- Guide.Search: `lower()` is modelled on ASCII letters only. Python also folds non-ASCII letters (`"ÉTÉ".lower()` is `"été"`), so a non-ASCII term can match in Python where the model finds nothing.
- Entities.Lookup: each class's own attributes are listed by name (its properties and its class-level attributes, including those `Base` defines), and a hit on one is reported as an opaque `ClassAttr`. Attributes every Python object inherits from `object` (`__class__`, `__dict__`, ...) are not listed and fall through to the backing sources. A property whose body raises `AttributeError`, which would make Python fall back to `__getattr__`, is not modelled.
- Entities.Construct: binding a keyword that names a read-only property (`Channel(programs=...)`) raises `AttributeError` in Python; the model binds it as an instance attribute.
- Entities.GuideChannels: its own contract only says that each result is a `Channel`. `GuideChannelsFromList` states which channels (one per `Channels` entry, in order).
- Entities.AllRecRules: its own contract only says that each result is a `RecRule`. `AllRecRulesFromList` states which rules (one per `RecRules` entry, in order).
- Api.Attribute: the endpoint's own members (`model`, `service`, `args`, `_request`, ...) are found as opaque `Member` values; their values are not modelled. `Api.Dispatch` reports `BadCallArgs` when `callable_action` names one of them, where Python would call it or fail to.
- Api.EndpointOf: `API` and `API.Service` objects have their own attributes (`url`, `endpoints`, `register`, `_request`, `Service`; `api`, `endpoints`). Python finds these before `__getattr__`, so a service or endpoint with one of those names would be shadowed. The model looks every name up in the registry.
