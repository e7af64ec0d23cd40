# KGE bias analyzer: a verified model of its extraction and bookkeeping core

The repository builds knowledge-graph datasets for measuring gender bias in
graph embeddings. Its parser side reads a Wikidata JSON dump line by line
and runs one of six registered *extractors* over every entity record. An
extractor either keeps a narrower derived record or rejects the entity
(`None`). The kept records are gathered in an accumulator (`DataMgr`) that
counts processed and saved records and dumps its map at checkpoints. A
second script merges the dumps of the "women" extractor and ranks women by
how many predicates they have. It then writes the facts of the best-ranked
women of five occupations out as triples. The analyzer side asks Wikidata
and DBpedia for each person's gender and occupation, in fixed-size query
batches. It counts men minus women per occupation and writes the
humans.txt file that the analysis reads back.

This project models that core in Dafny, module by module:

| module | file | source |
|---|---|---|
| `Common` | common.dfy | `None`, the exceptions that escape, sequence helpers |
| `Record` | record.dfy | the decoded entity record (claims, snaks, labels, sitelinks) as datatypes; Python dictionaries as ordered association lists; parser/code/entityparsers/entity.py |
| `Text` | text.dfy | `str.split`, `split(sep).pop()`, `join`, `replace` and `<` on `str` |
| `FullParser`, `HumanParser`, `HumanTempParser`, `HumanDefParser`, `LabelsParser`, `CountryParser`, `WomenParser` | full.dfy, human.dfy, human_temp.dfy, human_def.dfy, labels.dfy, country.dfy, women.dfy | the extractors of parser/code/entityparsers/ |
| `Manager` | manager.dfy | the extractor registry and `DataMgr` |
| `ParserHelper` | parser_helper.dfy | the line framing of `read_lines` and `check_progress` |
| `WikidataParser` | wikidata_parser.dfy | the skip loop and the batch/checkpoint driver of wikidata_parser.py |
| `WomenTriples` | women_triples.dfy | parser/code/women_to_triples.py |
| `AnalyzerHelper` | analyzer_helper.dfy | analyzer/code/helper.py |
| `Analyze` | analyze.dfy | `calc_men_women` and the humans.txt reader of analyzer/code/analyze.py |
| `Batching` | batching.dfy | the 50- and 100-item query batching |
| `ExtendWikidata` | extend_wikidata.dfy | analyzer/code/extend_wikidata.py |
| `ExtendDbpedia` | extend_dbpedia.dfy | analyzer/code/extend_dbpedia.py |

Each extractor follows the Python code's own form. It is a class whose
fields its `Process` method updates in loops. `Process` is proved against a
function (`Extract`) on the record, and lemmas about that function state
what the extractor promises. `DataMgr` is a class with counter,
entity-map and dump fields. The script-level loops are methods proved to
compute a function of their inputs. The network answers are function
parameters, and the dump is a sequence of already decoded batches.
Dictionaries are association lists that keep insertion order:
`Record.Put` replaces a value in place or appends a new key, as Python's
`dict` does.

## Model

The rows list the lemmas and methods whose contracts state what the code
promises. The specification functions they are stated over (for example
`Analyze.CalcMenWomen`, `Analyze.HumanMaps`, `ExtendWikidata.AddExtra`,
`ExtendDbpedia.Linked`, `ExtendDbpedia.PredNames`, `ExtendDbpedia.GroupRun`
and `WomenTriples.Script`) are covered by the rows of the lemmas about them.

| member | source | states |
|---|---|---|
| Record.GetMeaning | parser/code/entityparsers/labels.py:12-14 | `d.get(k)` is `None` exactly when no entry has key `k`; otherwise it is the value of an entry with key `k` |
| Record.Put | parser/code/entityparsers/human.py:49-51 | after `d[k] = v`, `k` holds `v` and every other key holds what it held; an existing key keeps its place, every other entry is unchanged, and a new key goes last |
| Record.GetSnoc | parser/code/entityparsers/human.py:49-51 | with a list one entry longer, a key already present is found at its earlier entry, and otherwise at the new entry |
| Record.PutFresh | parser/code/entityparsers/human.py:49-51 | assigning a key the dictionary lacks appends the pair at the end |
| Record.PutAllGet | parser/code/women_to_triples.py:29-33 | after `for k, v in src.items(): d[k] = f(v)` with distinct source keys, each source key holds `f` of its source value and every other key is unchanged |
| Record.PutAllFresh | parser/code/women_to_triples.py:54-56 | filling an empty dictionary from a source with distinct keys gives the source's keys in the source's order, each with `f` of its value |
| Record.PutAllLast | analyzer/code/extend_dbpedia.py:254-256 | later assignments win: a key holds `f` of the value of the last source entry that names it |
| Record.PutAllUntouched | parser/code/women_to_triples.py:29-33 | a key that no source entry names keeps what it held |
| Record.GetAt | parser/code/women_to_triples.py:87-88 | when every key is listed once, looking up an entry's key gives that entry's value |
| Record.DistinctInit | parser/code/women_to_triples.py:29-33 | dropping the last entry keeps keys distinct, and the last key is then absent |
| Record.PutDistinct | parser/code/entityparsers/human.py:49-51 | `d[k] = v` never lists a key twice |
| Record.PutAllDistinct | parser/code/women_to_triples.py:29-33 | a run of assignments never lists a key twice |
| Record.ClaimType | parser/code/entityparsers/entity.py:9-13 | a snak without a value has type "unknown", and any other snak has its datavalue's type; the type is "wikibase-entityid" exactly for an entity value and "time" exactly for a time value |
| Record.ValueId | parser/code/entityparsers/entity.py:18 | reading `['value']['id']` succeeds exactly for an entity value and gives its id; a string value raises TypeError and every other value raises KeyError |
| Record.ClaimObject | parser/code/entityparsers/entity.py:15-19 | the result is an id exactly for a statement whose main snak holds an entity value, and it is that entity's id; it is `None` exactly for a non-statement or a snak without a value; otherwise it is the error of reading the id |
| Record.ContainsObjectMeaning | parser/code/entityparsers/human.py:38 | `target in map(claim_object, cs)` is true exactly when some claim points at the target and no claim before it raised; it is false exactly when every claim reads without raising and none points at the target |
| Record.HasObject | parser/code/entityparsers/human.py:37-38 | a missing predicate entry gives false without raising |
| Record.IsHuman | parser/code/entityparsers/human.py:32-39 | a record without claims is not human |
| Record.Tag | parser/code/entityparsers/human.py:41-42 | each value of one entry is paired with that entry's key, in order |
| Record.VisitedStart | parser/code/entityparsers/human.py:41-42 | the inner loop over entry `i` starts after all earlier entries have been visited |
| Record.VisitedNext | parser/code/entityparsers/human.py:41-42 | each inner step visits the next value, paired with its key |
| Record.VisitedEnd | parser/code/entityparsers/human.py:41-42 | finishing entry `i` has visited exactly the entries up to and including `i` |
| Record.FlattenPrefix | parser/code/entityparsers/human.py:41-42 | the traversal of the first `k` entries is a prefix of the whole traversal |
| Record.InFlatten | parser/code/entityparsers/human.py:41-42 | every value of every entry is visited |
| Record.VisitedPrefix | parser/code/entityparsers/human.py:41-42 | what the nested loop has visited at any point is a prefix of the whole traversal |
| Record.TypeCountSnoc | parser/code/entityparsers/human.py:44-45 | visiting one more claim adds one to the count of its type and nothing to the others |
| Record.GroupByMeaning | parser/code/entityparsers/human.py:49-51 | after `track = d.get(k, []); track.append(v); d[k] = track` over the pairs, a key is present exactly when some pair carries it, and it holds that key's values in visiting order |
| Record.GroupBySnoc | parser/code/entityparsers/human.py:49-51 | one more pair appends its value to its key's list and changes no other key |
| Record.OfKindMeaning | parser/code/entityparsers/human_def.py:112-122 | a pair is kept exactly when it is one of the input pairs and its value is of the requested kind |
| Record.Partition | parser/code/entityparsers/human_def.py:112-122 | the two-level dictionary has one entry per kind |
| Record.PartitionFrom | parser/code/entityparsers/human_def.py:112-122 | a value filed under a kind and a key is of that kind and was paired with that key |
| Record.PartitionCovers | parser/code/entityparsers/human_def.py:112-122 | every value of a listed kind is filed under its kind and its key |
| Record.PartitionSnoc | parser/code/entityparsers/human_def.py:112-122 | filing one more value appends it under its kind and key and changes nothing else |
| Record.FiledSnoc | parser/code/entityparsers/human_def.py:112-122 | filing one more value changes only the dictionary of its own kind |
| Record.ValuesForHas | parser/code/entityparsers/human.py:49-51 | a value paired with a key is listed under that key |
| Record.ValuesForFrom | parser/code/entityparsers/human.py:49-51 | every value listed under a key was paired with that key |
| Record.SumCountsIsInCount | parser/code/entityparsers/full.py:12-20 | with distinct type names, the per-type counters add up to the number of visited claims whose type is one of them |
| Record.SumCountsSnoc | parser/code/entityparsers/full.py:52-53 | one more claim adds one to the sum exactly when its type is counted |
| Record.InCountAll | parser/code/entityparsers/human.py:16-25 | when every visited claim has a counted type, all of them are counted |
| Record.SumOverCounts | parser/code/entityparsers/human.py:16-25 | a counter map that holds each type's count sums to the total of those counts |
| Record.LabelKeys | parser/code/entityparsers/human.py:30 | a record without labels gives no language, and otherwise there is one language per label |
| Common.CountIf | parser/code/entityparsers/country.py:23-26 | the count of items with a property is at most the number of items |
| Common.Filter | parser/code/women_to_triples.py:56 | `list(filter(p, s))` holds only items of `s` that satisfy `p` |
| Common.FilterKeeps | parser/code/women_to_triples.py:56 | every item that satisfies the predicate is kept |
| Common.FilterAppend | parser/code/entityparsers/full.py:69 | filtering a concatenation filters each part |
| Common.FilterCons | parser/code/entityparsers/full.py:69 | the first item is kept exactly when it satisfies the predicate |
| Common.FilterNone | parser/code/entityparsers/full.py:69 | nothing is kept when no item satisfies the predicate |
| Common.FilterFirst | analyzer/code/extend_dbpedia.py:212-214 | the first kept item is the first item that satisfies the predicate |
| Common.ElementsBound | parser/code/entityparsers/full.py:72 | a list has no more distinct items than items |
| Common.FilterIsSubsequence | analyzer/code/analyze.py:13-15 | filtering keeps the kept items in their original order |
| Common.Collect | parser/code/wikidata_parser.py:42 | `list(filter(None, map(f, xs)))` keeps at most one result per item |
| Common.CollectSnoc | parser/code/wikidata_parser.py:42 | one more item adds its result when it has one, or its error when it raises |
| Common.CollectPrefixStep | parser/code/wikidata_parser.py:42 | an item that raises makes the whole map raise with its error; otherwise its result, if any, follows the earlier ones |
| Common.CollectFailPersists | parser/code/wikidata_parser.py:42 | once an item raises, the whole map raises with that error |
| Common.CollectMeaning | parser/code/wikidata_parser.py:42 | the map succeeds exactly when no item raises, and every kept result is the result of some item |
| Common.CollectAllPresent | parser/code/entityparsers/human_def.py:13-14 | when every item gives a result, there is one result per item, in order |
| Text.FindFromIsFirst | analyzer/code/extend_dbpedia.py:66 | the search reports the first occurrence at or after its start, and nothing exactly when there is none |
| Text.OccursInSuffix | analyzer/code/extend_dbpedia.py:66 | an occurrence in a suffix is an occurrence in the whole string |
| Text.LastStart | analyzer/code/extend_dbpedia.py:66 | the last piece starts between the search start and the end of the string |
| Text.SplitLast | analyzer/code/extend_dbpedia.py:66 | `split(sep).pop()` is no longer than the string |
| Text.LastStartHasNoSeparator | analyzer/code/extend_dbpedia.py:102 | no separator occurs from where the last piece starts |
| Text.LastStartFollowsSeparator | analyzer/code/extend_dbpedia.py:211 | when a separator occurs, the last piece starts right after one |
| Text.SplitLastIsSuffix | analyzer/code/extend_dbpedia.py:66 | the last piece is a suffix of the string, and is the whole string exactly when the separator does not occur |
| Text.SplitLastHasNoSeparator | analyzer/code/extend_dbpedia.py:255 | the last piece holds no separator |
| Text.SplitLastFollowsSeparator | parser/code/entityparsers/human_temp.py:12 | when the separator occurs, the last piece directly follows an occurrence of it |
| Text.IndexOf | analyzer/code/analyze.py:49 | the first index of a character: it is there and not before |
| Text.Split | analyzer/code/analyze.py:49 | `split(c)` gives at least one piece, and no piece holds `c` |
| Text.SplitJoin | analyzer/code/extend_dbpedia.py:70 | splitting undoes joining when no piece holds the separator |
| Text.Replace | analyzer/code/extend_dbpedia.py:67 | `replace(a, b)` keeps the length and changes exactly the characters equal to `a` into `b` |
| Text.LessIrreflexive | analyzer/code/helper.py:123 | no string is below itself in Python's order on `str` |
| Text.LessTransitive | analyzer/code/helper.py:123 | Python's order on `str` is transitive |
| Text.LessTotal | analyzer/code/helper.py:123 | any two different strings are ordered one way or the other |
| Batching.ConcatSnoc | analyzer/code/extend_wikidata.py:60-68 | laying out one more group appends it |
| Batching.RunInvariant | analyzer/code/extend_wikidata.py:59-68 | after each item, the sent groups followed by the open group are the items so far, in order; the open group is short of the batch size; every group sent before the last item is full; nothing is left open at the end |
| Batching.GroupsMeaning | analyzer/code/extend_wikidata.py:57-69 | every item is sent exactly once and in order; each group holds one to `size` items and all but the last hold exactly `size`; there are no groups exactly when there are no items |
| Batching.RunGrows | analyzer/code/extend_dbpedia.py:181-190 | the loop only adds groups: what it has sent is a prefix of what it sends later |
| AnalyzerHelper.GenderBalance | analyzer/code/helper.py:7-12 | both sets are subsets of the entities; an entity is a man exactly when its gender is "Q6581097" and a woman exactly when it is "Q6581072" |
| AnalyzerHelper.BalanceDisjoint | analyzer/code/helper.py:7-12 | no entity is both a man and a woman, so the two sets together are no larger than the entities |
| AnalyzerHelper.ReadClaim | analyzer/code/helper.py:14-19 | no claims give `None`; an empty claim list raises IndexError; the result is an id exactly when the first claim's main snak holds an entity value, and it is that entity's id; any other error is that of reading the first claim's id |
| AnalyzerHelper.ReadClaimFirst | analyzer/code/helper.py:17-19 | only the first claim is read |
| AnalyzerHelper.Answer | analyzer/code/helper.py:43-45 | a predicate's answer succeeds exactly when reading its first claim does, and it is that claim's id, or "unknown" when there is none |
| AnalyzerHelper.RowMeaning | analyzer/code/helper.py:41-45 | an entity's row succeeds exactly when every requested predicate's answer does, and then it holds exactly the requested predicates, each with its answer |
| AnalyzerHelper.Admitted | analyzer/code/helper.py:31-39 | an entity is kept exactly when it has claims and a "P31" list whose first claim points at "Q5"; no claims or no "P31" skips it |
| AnalyzerHelper.Entry | analyzer/code/helper.py:31-45 | an entity gives a row exactly when it is admitted and its row succeeds, and is skipped exactly when it is not admitted |
| AnalyzerHelper.ResponseSnoc | analyzer/code/helper.py:30-45 | one more entity adds its row, under its id, to the filtered response, skips it, or raises its error |
| AnalyzerHelper.ResponseFailPersists | analyzer/code/helper.py:30-45 | once an entity raises, the whole response raises with that error |
| AnalyzerHelper.ResponseOk | analyzer/code/helper.py:30-45 | the response succeeds exactly when no entity raises |
| AnalyzerHelper.ResponseGet | analyzer/code/helper.py:29-47 | with distinct entity ids, an id is in the response exactly when its entity is admitted, and then it holds that entity's row |
| AnalyzerHelper.FilterResponse | analyzer/code/helper.py:29-47 | the loop over the response computes `Response` |
| AnalyzerHelper.FillRow | analyzer/code/helper.py:41-45 | the loop over the requested predicates computes `Row` |
| AnalyzerHelper.RowFailPersists | analyzer/code/helper.py:42-45 | once a predicate raises, the whole row raises with that error |
| AnalyzerHelper.GetOr | analyzer/code/helper.py:57 | `d.get(k, default)` is the value of `k` when present and the default otherwise |
| AnalyzerHelper.Lines | analyzer/code/helper.py:59 | one written line per selected row, in order |
| AnalyzerHelper.RowsMeaning | analyzer/code/helper.py:52-59 | a row is written exactly for an entity of the union that has a non-empty gender or occupation, with its gender and occupation; no entity is written twice |
| AnalyzerHelper.WriteGenOcc | analyzer/code/helper.py:50-59 | the loop writes the lines of exactly the selected rows, in the order the entities are visited |
| AnalyzerHelper.WrittenEntities | analyzer/code/helper.py:52-59 | an entity is written exactly when its gender or its occupation is non-empty |
| AnalyzerHelper.ValueIds | analyzer/code/helper.py:113-117 | with `only_first`, at most one id is returned |
| AnalyzerHelper.Labels | analyzer/code/helper.py:105-118 | a human without claims, or without the predicate, gives no labels |
| AnalyzerHelper.ValueIdsOk | analyzer/code/helper.py:113-115 | collecting all ids succeeds exactly when every claim with a value holds an entity value |
| AnalyzerHelper.ValueIdsValues | analyzer/code/helper.py:113-115 | without `only_first`, the ids are those of the claims with a value, one per claim, in order |
| AnalyzerHelper.ValueIdsFirst | analyzer/code/helper.py:116-117 | with `only_first`, the result is the first of all the ids, or nothing |
| AnalyzerHelper.GetLabels | analyzer/code/helper.py:105-118 | the loop computes `Labels` |
| AnalyzerHelper.InsertContents | analyzer/code/helper.py:123 | inserting an item adds exactly that item |
| AnalyzerHelper.SortDescPermutes | analyzer/code/helper.py:123 | sorting is a permutation of the items |
| AnalyzerHelper.InsertDescending | analyzer/code/helper.py:123 | inserting into a non-increasing list keeps it non-increasing |
| AnalyzerHelper.SortDescDescending | analyzer/code/helper.py:123 | the sorted items have non-increasing values |
| AnalyzerHelper.InsertStable | analyzer/code/helper.py:123 | inserting an item puts it after the items with its value |
| AnalyzerHelper.SortDescStable | analyzer/code/helper.py:123 | items with equal values keep their original order (a stable sort) |
| AnalyzerHelper.OrderDictMeaning | analyzer/code/helper.py:121-124 | `order_dict` keeps exactly the same key/value pairs, orders them by non-increasing value, and keeps tied entries in their original order |
| AnalyzerHelper.SortDescDistinct | analyzer/code/helper.py:123 | sorting a dictionary's items keeps keys distinct |
| AnalyzerHelper.InsertDistinct | analyzer/code/helper.py:123 | inserting an item with a new key keeps keys distinct |
| AnalyzerHelper.RebuildDistinct | analyzer/code/helper.py:122-124 | rebuilding a dictionary from items with distinct keys gives back exactly those items |
| Analyze.MenWomenMeaning | analyzer/code/analyze.py:11-18 | men and women are sub-lists of the people with the occupation, which are a sub-list of the entities; an entity is among the men exactly when it is listed, has that occupation and gender "Q6581097", and among the women exactly when it has gender "Q6581072" |
| Analyze.MenWomenDisjoint | analyzer/code/analyze.py:14-15 | no entity is among both the men and the women |
| Analyze.NonPeopleMeaning | analyzer/code/analyze.py:16 | the non-people are a sub-list of the entities, and an entity is one exactly when it is listed and has no occupation entry |
| Analyze.ParseHumans | analyzer/code/analyze.py:45-53 | the loop over the lines of humans.txt computes `HumanMaps` |
| Analyze.HumanMapsLast | analyzer/code/analyze.py:48-53 | an entity named on an accepted line (three tab-separated fields, the last non-empty) gets the gender and occupation of the last such line |
| Analyze.HumanMapsNone | analyzer/code/analyze.py:48-53 | an entity named on no accepted line gets neither a gender nor an occupation |
| Analyze.LineFields | analyzer/code/helper.py:59 | splitting a written line on tabs gives back its three fields when none holds a tab |
| Analyze.LineJoin | analyzer/code/helper.py:59 | a written line is its three fields joined by tabs |
| Analyze.RoundTrip | analyzer/code/analyze.py:46-53 | reading back the humans.txt that `write_gen_occ` writes gives every entity with a non-empty occupation its occupation and gender, and gives the others neither |
| Analyze.LinesFields | analyzer/code/helper.py:57-59 | every written line splits back into the row it was written from |
| Analyze.ReadBack | analyzer/code/analyze.py:46-53 | an entity with a non-empty occupation is read back with its occupation and gender |
| Analyze.NotReadBack | analyzer/code/analyze.py:50 | an entity whose occupation is empty is dropped on reading |
| Analyze.TabFreeFields | analyzer/code/helper.py:57-59 | an entity and its fields hold no tab when the dictionaries hold none |
| Analyze.KeyInOrder | analyzer/code/helper.py:52 | every entity with an occupation is visited when writing |
| ExtendWikidata.BuildTable | analyzer/code/extend_wikidata.py:38-44 | the loop over the id/name rows computes `Table` |
| ExtendWikidata.TableLast | analyzer/code/extend_wikidata.py:38-44 | an id maps to the name of its last row |
| ExtendWikidata.TableMissing | analyzer/code/extend_wikidata.py:38-44 | an id on no row is missing from the table |
| ExtendWikidata.Lookup | analyzer/code/extend_wikidata.py:46-48 | `d[k]` is the value of `k` when present and raises KeyError otherwise |
| ExtendWikidata.Translate | analyzer/code/extend_wikidata.py:46-48 | a translated dataset has one triple per input triple |
| ExtendWikidata.TranslateOk | analyzer/code/extend_wikidata.py:46-48 | translation succeeds exactly when every subject, predicate and object is in its dictionary, and otherwise raises KeyError |
| ExtendWikidata.TranslateValues | analyzer/code/extend_wikidata.py:46-48 | each translated triple holds the dictionary values of the original's subject, predicate and object |
| ExtendWikidata.Unique | analyzer/code/extend_wikidata.py:57 | `unique()` keeps exactly the values of the input, each once |
| ExtendWikidata.Mentions | analyzer/code/extend_wikidata.py:57 | appending the objects to the subjects gives two entries per triple |
| ExtendWikidata.AllEntities | analyzer/code/extend_wikidata.py:57 | the entities to query are distinct |
| ExtendWikidata.AllEntitiesMeaning | analyzer/code/extend_wikidata.py:57 | an entity is queried exactly when it is the subject or the object of some triple |
| ExtendWikidata.MergeGet | analyzer/code/extend_wikidata.py:63-67 | after merging one response, an entity holds the response's value for the predicate when it has one, and its earlier value otherwise |
| ExtendWikidata.MergeDistinct | analyzer/code/extend_wikidata.py:63-67 | merging keeps keys distinct |
| ExtendWikidata.ResponseDistinct | analyzer/code/helper.py:29-47 | a filtered response has distinct keys |
| ExtendWikidata.GatheredFailPersists | analyzer/code/extend_wikidata.py:59-69 | once a query raises, the whole loop raises with that error |
| ExtendWikidata.GatheredDistinct | analyzer/code/extend_wikidata.py:59-69 | the gender and occupation dictionaries gathered have distinct keys |
| ExtendWikidata.GatherStops | analyzer/code/extend_wikidata.py:59-69 | a query that raises ends the loop with that error |
| ExtendWikidata.QueryAll | analyzer/code/extend_wikidata.py:57-69 | the loop queries the entities in batches of 50 and merges every response into the gender and occupation dictionaries, as `Gathered` over the batches |
| ExtendWikidata.MergeAnswer | analyzer/code/extend_wikidata.py:63-67 | the inner loop merges the "P21" answers into the genders and the "P106" answers into the occupations |
| ExtendWikidata.OccTriples | analyzer/code/extend_wikidata.py:71-73 | one occupation triple per entity with an occupation |
| ExtendWikidata.MakeOccTriples | analyzer/code/extend_wikidata.py:71-73 | the loop computes `OccTriples` |
| ExtendWikidata.OccTriplesMeaning | analyzer/code/extend_wikidata.py:71-73 | a triple is emitted exactly when it is `(entity, "P106", occupation)` for an entity with that occupation |
| ExtendWikidata.OccTriplesDistinct | analyzer/code/extend_wikidata.py:71-73 | no entity gets two occupation triples |
| ExtendWikidata.BalanceStep | analyzer/code/extend_wikidata.py:79-84 | each entity with the occupation adds one for a man, subtracts one for a woman, and leaves the count unchanged otherwise |
| ExtendWikidata.MissingWomen | analyzer/code/extend_wikidata.py:78-84 | the counts are kept for exactly the occupations that occur, and each is the number of men minus the number of women with it |
| ExtendWikidata.AddExtraWomen | analyzer/code/extend_wikidata.py:95-97 | the loop computes `AddExtra` |
| ExtendWikidata.ExtraLast | analyzer/code/extend_wikidata.py:95-97 | the subject of an extra "P106" triple becomes a woman with the occupation of its last such triple |
| ExtendWikidata.ExtraUntouched | analyzer/code/extend_wikidata.py:95-97 | an entity that is the subject of no extra "P106" triple keeps its gender and occupation |
| HumanParser.Extract | parser/code/entityparsers/human.py:29-53 | a record without claims, or that is not human, is dropped; the human check's error is the result's error; a human record raises (KeyError) exactly when some claim has a type outside the eight counters |
| HumanParser.EntityPairsSnoc | parser/code/entityparsers/human.py:48-50 | one more claim adds its (predicate, object) pair exactly when its main snak holds an entity value |
| HumanParser.ObjectsOfPairs | parser/code/entityparsers/human.py:48-51 | the objects tracked under a predicate are that predicate's entity objects, in visiting order |
| HumanParser.HumanExtractProperties | parser/code/entityparsers/human.py:15-53 | a kept record has exactly the eight counters, and they add up to the number of claims; a predicate is tracked exactly when it has an entity object, and holds those objects in order; the languages are the label keys |
| HumanParser.CountsCover | parser/code/entityparsers/human.py:16-25 | when every claim has a counted type, the counters are exactly the eight types and add up to the number of claims |
| HumanParser.TrackingMeaning | parser/code/entityparsers/human.py:48-51 | a predicate is tracked exactly when it has an entity object, and it holds those objects in order |
| HumanParser.TrackStep | parser/code/entityparsers/human.py:48-51 | one more claim appends its object under its predicate when its main snak holds an entity value, and otherwise changes nothing |
| HumanParser.Bump | parser/code/entityparsers/human.py:45 | `counts[t] += 1` adds one at `t`, keeps the keys, and changes no other counter |
| HumanParser.BucketStep | parser/code/entityparsers/human.py:43-45 | a claim of a counted type adds one to its counter |
| HumanParser.Human.constructor | parser/code/entityparsers/human.py:9-27 | a new extractor has the given id, no tracking, eight zero counters and no languages |
| HumanParser.Human.Process | parser/code/entityparsers/human.py:29-53 | the status (kept, dropped or raised) is that of `Extract`; the languages are the label keys even for a dropped record; a kept extractor's fields are the extracted data |
| HumanParser.Human.ProcessClaims | parser/code/entityparsers/human.py:41-51 | the loops succeed exactly when every claim has a counted type, and then the counters and the tracking are those of all claims |
| HumanParser.Human.ProcessStatements | parser/code/entityparsers/human.py:42-51 | the loop over one predicate's claims counts and tracks them, or fails only when the whole scan would raise |
| HumanParser.Human.CountClaim | parser/code/entityparsers/human.py:43-51 | one claim fails only when its type has no counter; otherwise it is counted and tracked |
| FullParser.Extract | parser/code/entityparsers/full.py:31-44 | a record is never dropped, and it raises (KeyError) exactly when some claim's type is neither "unknown" nor one of the seven counters |
| FullParser.FreshCountsAreZero | parser/code/entityparsers/full.py:7-29 | a record with no claims, labels, descriptions or sitelinks gives seven zero counters, no mentions and zero sizes |
| FullParser.ValueClaimsSnoc | parser/code/entityparsers/full.py:49-56 | one more claim adds one valued claim unless its type is "unknown", and one mention exactly when its main snak holds an entity value |
| FullParser.BucketStep | parser/code/entityparsers/full.py:52-53 | a claim of a counted type adds one to its counter; an "unknown" claim changes nothing |
| FullParser.BucketKeys | parser/code/entityparsers/full.py:12-20 | the counters are exactly the seven types |
| FullParser.MentionStep | parser/code/entityparsers/full.py:55-57 | an entity-valued claim adds one to its object's mention count, starting from zero, and any other claim changes nothing |
| FullParser.MentionCountsSnoc | parser/code/entityparsers/full.py:57 | `m[id] = m.get(id, 0) + 1` |
| FullParser.ValueClaimsAreBucketed | parser/code/entityparsers/full.py:52-53 | when no claim raises, every claim with a value falls in exactly one counter |
| FullParser.MentionsMatchEntityBucket | parser/code/entityparsers/full.py:55-57 | there is one mention per entity-valued claim |
| FullParser.MentionCountsMeaning | parser/code/entityparsers/full.py:55-57 | an object is mentioned exactly when it occurs, and its count is its number of occurrences |
| FullParser.FullBucketTotal | parser/code/entityparsers/full.py:46-53 | the counters are the seven types and add up to the number of claims whose type is not "unknown" |
| FullParser.FullMentionTotal | parser/code/entityparsers/full.py:46-57 | the mention counts are the occurrences of each object, and they add up to the "wikibase-entityid" counter |
| FullParser.FullBadgeBound | parser/code/entityparsers/full.py:66-72 | there are never more distinct badges than badges |
| FullParser.FullEnt.constructor | parser/code/entityparsers/full.py:7-29 | a new extractor has the given id, seven zero counters, no mentions and zero sizes |
| FullParser.FullEnt.Process | parser/code/entityparsers/full.py:31-44 | the status is that of `Extract`, and a kept extractor's fields are the extracted data |
| FullParser.FullEnt.ProcessClaims | parser/code/entityparsers/full.py:46-57 | the loops succeed exactly when no claim raises, and then the counters and mentions are those of all claims |
| FullParser.FullEnt.ProcessStatements | parser/code/entityparsers/full.py:48-57 | the loop over one predicate's claims counts them, or fails only when the whole scan would raise |
| FullParser.FullEnt.VisitClaim | parser/code/entityparsers/full.py:49-57 | one claim fails only when its type is neither "unknown" nor counted; otherwise it is counted |
| FullParser.FullEnt.CountClaim | parser/code/entityparsers/full.py:49-57 | one claim adds one to its type's counter unless it is "unknown", and one to its object's mention count when it holds an entity value; it fails exactly when its type has no counter |
| FullParser.FullEnt.ProcessDescriptions | parser/code/entityparsers/full.py:60-61 | the description count is the number of descriptions |
| FullParser.FullEnt.ProcessLabels | parser/code/entityparsers/full.py:63-64 | the label count is the number of labels |
| FullParser.FullEnt.ProcessSitelinks | parser/code/entityparsers/full.py:66-72 | the sitelink count is the number of sitelinks, the badge count the number of badges of all links, and the unique count the number of distinct badges |
| HumanDefParser.ParseBare | parser/code/entityparsers/human_def.py:20-68 | a snak without a value gives no fact; a "wikibase-item" snak gives an entity fact exactly when it holds an entity value; a "time" snak gives a time fact exactly when it holds a time value (otherwise AttributeError), with the calendar absent for the proleptic Gregorian calendar and otherwise the last "/" segment of its URI; a "coordinate" snak gives a coordinate fact; any other datatype gives none |
| HumanDefParser.RefFact | parser/code/entityparsers/human_def.py:81-85 | a reference snak parses exactly when its bare fact parses, and a parsed fact stays under its predicate |
| HumanDefParser.RefFiling | parser/code/entityparsers/human_def.py:81-88 | filing a reference's snaks succeeds exactly when every snak parses |
| HumanDefParser.ParseReference | parser/code/entityparsers/human_def.py:73-78 | a reference block without "snaks" gives a reference with no items |
| HumanDefParser.ParseReferences | parser/code/entityparsers/human_def.py:6-14 | a claim without references gets an empty reference list |
| HumanDefParser.ParseSnak | parser/code/entityparsers/human_def.py:54-68 | the error of the bare fact is the result's error; a snak that gives no fact gives none; a fact carries the bare fact together with the parsed references |
| HumanDefParser.ClaimFact | parser/code/entityparsers/human_def.py:114 | a claim's fact is parsed from its main snak and references, and stays under the claim's predicate |
| HumanDefParser.Tracking | parser/code/entityparsers/human_def.py:94-98 | the tracking dictionary has exactly the kinds "entity", "temporal" and "coord" |
| HumanDefParser.Filing | parser/code/entityparsers/human_def.py:112-122 | filing the claims succeeds exactly when every claim's fact parses, and fails with the first error |
| HumanDefParser.Extract | parser/code/entityparsers/human_def.py:100-124 | the human check's error is the result's error; a record that is not human is dropped; a human record is kept exactly when all its claims parse |
| HumanDefParser.ReferencesOnePerInput | parser/code/entityparsers/human_def.py:6-14 | the references parse exactly when each reference block parses, and then there is one reference per block, in order |
| HumanDefParser.ReferenceItems | parser/code/entityparsers/human_def.py:81-88 | every fact filed under a predicate of a reference was parsed from a snak of that predicate |
| HumanDefParser.ParsedFromClaims | parser/code/entityparsers/human_def.py:112-116 | every fact that is kept comes from a claim of that predicate whose main snak parsed to it |
| HumanDefParser.TrackingFrom | parser/code/entityparsers/human_def.py:119-122 | a fact filed under a kind has that kind's name, and it was collected under that predicate |
| HumanDefParser.TrackingCovers | parser/code/entityparsers/human_def.py:119-122 | every collected fact is filed under its kind and its predicate |
| HumanDefParser.TrackingSnoc | parser/code/entityparsers/human_def.py:119-122 | filing one more fact appends it under its kind and predicate and changes nothing else |
| HumanDefParser.DefExtractFiled | parser/code/entityparsers/human_def.py:100-124 | a kept record has the record's id and its label languages, and the tracking has the three kinds; each filed fact is of its kind and comes from a claim of its predicate |
| HumanDefParser.DefExtractComplete | parser/code/entityparsers/human_def.py:112-122 | every fact parsed from a claim of a kept record is filed under its kind and predicate |
| HumanDefParser.HumanDef.constructor | parser/code/entityparsers/human_def.py:91-98 | a new extractor has the given id and three empty kind dictionaries |
| HumanDefParser.HumanDef.Process | parser/code/entityparsers/human_def.py:100-124 | the status (kept, dropped or raised) is that of `Extract`; the languages are the label keys; a kept extractor's fields are the extracted data |
| HumanDefParser.HumanDef.ProcessClaims | parser/code/entityparsers/human_def.py:112-122 | the outer loop either files every claim, or stops with the error that filing all claims raises |
| HumanDefParser.HumanDef.ProcessStatements | parser/code/entityparsers/human_def.py:113-122 | the inner loop over one predicate's claims files them, or stops with the error of the whole filing |
| HumanDefParser.HumanDef.StatementStep | parser/code/entityparsers/human_def.py:114-122 | one claim is filed, or the error it raises is the error of the whole filing |
| HumanDefParser.NewFact | parser/code/entityparsers/human_def.py:54-68 | building a fact step by step gives `ParseSnak` |
| HumanDefParser.BuildReferences | parser/code/entityparsers/human_def.py:6-14 | the loop over the reference blocks gives `ParseReferences` |
| HumanDefParser.BuildReference | parser/code/entityparsers/human_def.py:73-88 | building one reference gives `ParseReference` |
| HumanDefParser.FileReferenceSnaks | parser/code/entityparsers/human_def.py:81-88 | the loop over one predicate's reference snaks files them, or stops with the error of the whole filing |
| HumanDefParser.FileReferenceSnak | parser/code/entityparsers/human_def.py:84-88 | one reference snak is filed, or its error is the error of the whole filing |
| HumanTempParser.Temporal | parser/code/entityparsers/human_temp.py:4-15 | a temporal record is built exactly for a time value; it carries the given entity, the snak's property, the timestamp and the precision, and its calendar is absent exactly for the proleptic Gregorian calendar; a snak without a value raises KeyError and any other value raises AttributeError |
| HumanTempParser.CalendarIsLastSegment | parser/code/entityparsers/human_temp.py:10-12 | a stored calendar belongs to a non-Gregorian calendar model, is a suffix of its URI and holds no "/" |
| HumanTempParser.Extract | parser/code/entityparsers/human_temp.py:26-69 | the human check's error is the result's error; a record that is not human is dropped; a human record raises exactly when a qualifying qualifier is not a time value, and is otherwise dropped exactly when it has no time claim and no time qualifier |
| HumanTempParser.QualHitsSnoc | parser/code/entityparsers/human_temp.py:55-61 | one more qualifier adds a hit exactly when it is a "time" snak with a value |
| HumanTempParser.HitsSnoc | parser/code/entityparsers/human_temp.py:37-44 | one more claim adds its qualifier hits, and one direct time record exactly when its main snak is a time value |
| HumanTempParser.IndirectSnoc | parser/code/entityparsers/human_temp.py:61-64 | a time hit keeps the loop error-free and appends its record under its predicate |
| HumanTempParser.HitsOkMeaning | parser/code/entityparsers/human_temp.py:57-61 | the qualifier loop raises nothing exactly when every hit holds a time value |
| HumanTempParser.DirectMeaning | parser/code/entityparsers/human_temp.py:42-44 | there is one direct record per time claim, each with an empty entity and the property of a visited main snak |
| HumanTempParser.MainPropertiesSnoc | parser/code/entityparsers/human_temp.py:37-44 | one more claim adds its main snak's property |
| HumanTempParser.QualHitsMeaning | parser/code/entityparsers/human_temp.py:55-61 | every hit carries the claim's predicate and object, qualifies, and is one of the qualifiers |
| HumanTempParser.HitsComeFromEntityClaims | parser/code/entityparsers/human_temp.py:46-61 | every hit comes from a visited claim of the same predicate whose main snak holds an entity value equal to the hit's entity and which has qualifiers |
| HumanTempParser.HitsForPairs | parser/code/entityparsers/human_temp.py:62-64 | the records filed under a predicate are that predicate's hits, in order |
| HumanTempParser.TempExtractProperties | parser/code/entityparsers/human_temp.py:36-68 | a kept record raised nothing; a predicate is indirect exactly when it has hits, and it holds them in order; there is one direct record per time claim, each with an empty entity; something temporal was found; the languages are the label keys |
| HumanTempParser.HitsForNonEmpty | parser/code/entityparsers/human_temp.py:62-64 | a predicate with a time hit is listed under `indirect` |
| HumanTempParser.TempHuman.constructor | parser/code/entityparsers/human_temp.py:19-23 | a new extractor has the given id and no temporal data |
| HumanTempParser.TempHuman.Process | parser/code/entityparsers/human_temp.py:26-69 | the status (kept, dropped or raised) is that of `Extract`, and a kept extractor's fields are the extracted data |
| HumanTempParser.TempHuman.ProcessClaims | parser/code/entityparsers/human_temp.py:37-64 | the outer loop succeeds exactly when no qualifier raises; it then has recorded every claim, and the found flag is set exactly when something temporal was seen |
| HumanTempParser.TempHuman.ProcessStatements | parser/code/entityparsers/human_temp.py:38-64 | the loop over one predicate's claims records them and keeps the found flag exact, or fails only when the whole scan would raise |
| HumanTempParser.TempHuman.StatementStep | parser/code/entityparsers/human_temp.py:39-64 | one claim is recorded and the found flag kept exact, or the whole scan raises |
| HumanTempParser.TempHuman.VisitClaim | parser/code/entityparsers/human_temp.py:39-64 | one claim is recorded and the found flag kept exact, or the claims visited so far raise |
| HumanTempParser.TempHuman.ProcessQualifiers | parser/code/entityparsers/human_temp.py:55-64 | the qualifier loops of one claim record its hits, or fail only when one of its qualifiers raises |
| HumanTempParser.TempHuman.ProcessQualifierList | parser/code/entityparsers/human_temp.py:55-64 | the loop over one qualifier predicate records its hits and reports whether there were any, or fails only when a qualifier raises |
| HumanTempParser.TempHuman.QualifierStep | parser/code/entityparsers/human_temp.py:56-64 | one qualifier is recorded, or the claim's qualifiers raise |
| HumanTempParser.TempHuman.VisitQualifier | parser/code/entityparsers/human_temp.py:57-64 | a qualifier fails only when it qualifies but is not a time value, and is otherwise recorded exactly when it qualifies |
| HumanTempParser.BadClaim | parser/code/entityparsers/human_temp.py:37-64 | a claim that raises makes the whole scan raise |
| HumanTempParser.BadQualifier | parser/code/entityparsers/human_temp.py:57-61 | a qualifying qualifier that is not a time value makes the claim's qualifiers raise |
| HumanTempParser.QualHitsHas | parser/code/entityparsers/human_temp.py:57-61 | every qualifying qualifier becomes a hit |
| HumanTempParser.HitsOkAppend | parser/code/entityparsers/human_temp.py:55-64 | two runs of hits raise nothing exactly when neither does |
| HumanTempParser.HitsOkPrefix | parser/code/entityparsers/human_temp.py:37-64 | when the whole scan raises nothing, no prefix of it does |
| HumanTempParser.HitsPrefix | parser/code/entityparsers/human_temp.py:37-64 | the hits of a prefix of the claims begin the hits of all of them |
| WomenParser.Track | parser/code/entityparsers/women.py:8-15 | the tracking dictionary has exactly the tracked predicates as keys |
| WomenParser.Extract | parser/code/entityparsers/women.py:17-41 | a record without claims, that is not human, or without "P21" pointing at "Q6581072" is dropped; an error of either check is the result's error; a woman is kept with her id |
| WomenParser.WomenAreHuman | parser/code/entityparsers/women.py:17-29 | a record is kept exactly when it has claims, is human, and has "P21" pointing at "Q6581072" |
| WomenParser.ObjectsOfSnoc | parser/code/entityparsers/women.py:33-39 | one more claim of the predicate adds its object exactly when its main snak holds an entity value |
| WomenParser.ObjectsOfMeaning | parser/code/entityparsers/women.py:33-39 | an id is tracked under a predicate exactly when some claim of that predicate points at it |
| WomenParser.ObjectsOfOther | parser/code/entityparsers/women.py:31-32 | claims of another predicate add nothing under this one |
| WomenParser.TrackUntracked | parser/code/entityparsers/women.py:31-32 | the claims of a predicate that is not tracked are skipped |
| WomenParser.TrackSnoc | parser/code/entityparsers/women.py:33-39 | a claim of a tracked predicate appends its object under that predicate when it holds an entity value, and otherwise changes nothing |
| WomenParser.WomenExtractProperties | parser/code/entityparsers/women.py:17-41 | a kept record has her id and exactly the tracked predicates, each holding that predicate's entity objects in order; an id is listed under a predicate exactly when some claim of it points there |
| WomenParser.Women.constructor | parser/code/entityparsers/women.py:5-15 | a new extractor has the given id and an empty list per tracked predicate |
| WomenParser.Women.Process | parser/code/entityparsers/women.py:17-41 | the status is that of `Extract`, and a kept extractor's fields are the extracted data |
| WomenParser.Women.ProcessClaims | parser/code/entityparsers/women.py:31-39 | after the loops the tracking is that of all claims |
| WomenParser.Women.ProcessStatements | parser/code/entityparsers/women.py:32-39 | the loop over one tracked predicate's claims extends the tracking by them |
| CountryParser.FirstCountry | parser/code/entityparsers/country.py:28-33 | only the first "P17" claim is read: its object when it holds an entity value, and "unknown" otherwise or when there are no claims |
| CountryParser.Extract | parser/code/entityparsers/country.py:10-35 | the extractor never raises; a record is dropped exactly when it has no claims, or neither "P17" nor "P131"; a kept record has its id |
| CountryParser.EntityObjectsSnoc | parser/code/entityparsers/country.py:23-26 | one more territorial claim adds its object exactly when it holds an entity value |
| CountryParser.EntityObjectsMeaning | parser/code/entityparsers/country.py:23-26 | there is one territory per entity-valued "P131" claim, and a territory is listed exactly when such a claim points at it |
| CountryParser.CountryOrTerritories | parser/code/entityparsers/country.py:20-33 | a kept record has a country or territories but never both, and a known country comes from "P17" |
| CountryParser.Country.constructor | parser/code/entityparsers/country.py:5-8 | a new extractor has the given id, country "unknown" and no territories |
| CountryParser.Country.Process | parser/code/entityparsers/country.py:10-35 | the status is that of `Extract`, and a kept extractor's fields are the extracted data |
| CountryParser.Country.AddTerritories | parser/code/entityparsers/country.py:23-26 | the loop collects the entity objects of the territorial claims in order |
| LabelsParser.PickLabel | parser/code/entityparsers/labels.py:11-20 | no labels leave the empty label; an "en" label gives its text; otherwise the first label's whole entry is stored |
| LabelsParser.Extract | parser/code/entityparsers/labels.py:11-20 | every record is kept, with its id |
| LabelsParser.LabelFromRecord | parser/code/entityparsers/labels.py:12-18 | the first entry is stored exactly when there are labels and none of them is "en"; a non-empty text comes from an "en" label |
| LabelsParser.Labels.constructor | parser/code/entityparsers/labels.py:7-9 | a new extractor has the given id and the empty label |
| LabelsParser.Labels.Process | parser/code/entityparsers/labels.py:11-20 | the record is always kept, and the extractor's fields are the extracted data |
| Manager.Lift | parser/code/entityparsers/manager.py:42-43 | wrapping an extractor's result keeps its status and wraps the kept data |
| Manager.RunKeepsId | parser/code/entityparsers/manager.py:42-43 | every extractor keeps the record's id |
| Manager.Outcome | parser/code/entityparsers/manager.py:43-46 | the result built from a status and a snapshot has that status and that data |
| Manager.OutcomeIsLift | parser/code/entityparsers/manager.py:42-46 | running an extractor object gives the same result as its `Extract` function |
| Manager.Lookup | parser/code/entityparsers/manager.py:22-30 | a name selects an extractor exactly when it is registered |
| Manager.DataMgr.constructor | parser/code/entityparsers/manager.py:17-31 | a new manager holds no entities, zero counters, no selected parser and no dumps |
| Manager.DataMgr.GetParsers | parser/code/entityparsers/manager.py:33-34 | the names are exactly the registered ones, one per entry |
| Manager.DataMgr.SetParser | parser/code/entityparsers/manager.py:36-38 | the selected name is stored first; the parser is set exactly when the name is registered, and otherwise KeyError is raised and the parser is unchanged |
| Manager.DataMgr.ProcessEntity | parser/code/entityparsers/manager.py:40-46 | the processed counter goes up by one; the result is the selected extractor's, or AttributeError when none was selected; the saved counter goes up exactly when a record is kept |
| Manager.DataMgr.DumpCurrent | parser/code/entityparsers/manager.py:48-52 | the current entities are appended to the named dump and then cleared |
| Manager.DataMgr.AddEntities | parser/code/entityparsers/manager.py:54-55 | `update` adds the new entities and lets them win on clashes |
| Manager.Build | parser/code/entityparsers/manager.py:42-43 | building and running the selected extractor object gives `Run` |
| ParserHelper.Frame | parser/code/helper.py:23-26 | a line of at most two characters is dropped; a longer one loses exactly its last two characters (the ",\n" framing) |
| ParserHelper.FrameLinesSnoc | parser/code/helper.py:23-26 | one more line adds its framed text exactly when it is longer than two characters |
| ParserHelper.FrameLinesAppend | parser/code/helper.py:23-26 | framing two runs of lines is framing each in turn |
| ParserHelper.FrameLinesMeaning | parser/code/helper.py:23-26 | there is one text per line longer than two characters, and each text is such a line without its last two characters |
| ParserHelper.Lines | parser/code/helper.py:20-21 | one framed line per record |
| ParserHelper.FrameDocument | parser/code/helper.py:20-26 | framing a whole dump ("[" line, one "record,\n" line per record, "]" line) gives back exactly the records' texts |
| ParserHelper.FrameLinesOfLines | parser/code/helper.py:20-26 | framing the record lines alone gives back exactly the records' texts |
| ParserHelper.DecodeAll | parser/code/helper.py:26 | one decoded record per text, in order |
| ParserHelper.ReadLines | parser/code/helper.py:14-28 | a closed file gives no records; otherwise the records are the decoded texts of the framed lines |
| ParserHelper.CheckProgress | parser/code/helper.py:30-47 | `minor` holds exactly when `int(saved / 100000) > passed`; `major` holds exactly when `passed` is a non-zero multiple of 10, and then the current entities are dumped under the selected parser's name and cleared; otherwise nothing changes |
| ParserHelper.NextPassed | parser/code/wikidata_parser.py:46-51 | after a major step the counter is reset to 0; otherwise it goes up by one exactly on a minor step |
| ParserHelper.PassedBound | parser/code/wikidata_parser.py:46-51 | the counter never passes 10 |
| ParserHelper.EveryBatchIsMinor | parser/code/helper.py:34 | once 1,100,000 entities are saved, every batch is a minor step |
| ParserHelper.PassedAfterSnoc | parser/code/wikidata_parser.py:46-51 | the counter after one more batch is one more step from the previous counter |
| ParserHelper.ElevenBatchCycle | parser/code/wikidata_parser.py:46-51 | when every batch is minor, the counter counts up to 10 and is reset on the eleventh batch, so a dump happens every eleven batches and not every ten |
| WikidataParser.DumpFile.constructor | parser/code/wikidata_parser.py:28 | an opened dump file is at its start and not closed |
| WikidataParser.DumpFile.ReadLine | parser/code/wikidata_parser.py:33 | `readline` gives the next line and moves past it, or gives "" at the end |
| WikidataParser.DumpFile.ReadChunk | parser/code/helper.py:18 | `readlines` gives the next chunk of lines, or what is left of them, and moves past it |
| WikidataParser.SkipLines | parser/code/wikidata_parser.py:30-33 | skipping moves the file past `skip` lines, or to its end |
| WikidataParser.BatchesRead | parser/code/wikidata_parser.py:35-54 | the batches read from a position are the framed chunk there followed by the batches of the rest |
| WikidataParser.RunnerSelects | parser/code/entityparsers/manager.py:36-43 | the extractor built for a kind runs that kind's `Extract` |
| WikidataParser.RunAllSnoc | parser/code/wikidata_parser.py:41-43 | one more batch adds its kept records, or its error, after the earlier batches' |
| WikidataParser.RunAllFailPersists | parser/code/wikidata_parser.py:41-43 | once a batch raises, the run has raised whatever follows |
| WikidataParser.TotalSnoc | parser/code/entityparsers/manager.py:40-41 | one more batch adds its size to the number of records read |
| WikidataParser.IndexAppend | parser/code/wikidata_parser.py:43 | `{ent.id: ent for ent in a + b}` is the index of `a` updated by the index of `b` |
| WikidataParser.IndexMeaning | parser/code/wikidata_parser.py:43 | an id is indexed exactly when some kept record has it, and then it holds the last record with that id |
| WikidataParser.MergeDumpsSnoc | parser/code/entityparsers/manager.py:48-52 | reading the dumps back in order lets a later dump win |
| WikidataParser.ProcessBatch | parser/code/wikidata_parser.py:42 | the batch's result is `Collect` of the selected extractor over it; on success every record was counted as processed and every kept record as saved |
| WikidataParser.ReadBatch | parser/code/wikidata_parser.py:54 | reading a batch splits the remaining batches into this one and those after it, and a non-empty batch moves the file forward |
| WikidataParser.PendingStep | parser/code/wikidata_parser.py:36-54 | handing a batch over and reading the next keeps the batches seen plus the batches pending equal to all batches |
| WikidataParser.RunAllStep | parser/code/wikidata_parser.py:42 | a batch's error is the run's error, and otherwise its kept records follow the earlier ones |
| WikidataParser.AddStep | parser/code/wikidata_parser.py:43 | adding a batch's index keeps the dumped and held entities equal to the index of all kept records |
| WikidataParser.DumpStep | parser/code/entityparsers/manager.py:48-52 | a dump moves the held entities into the dumps without losing or changing any |
| WikidataParser.Accumulate | parser/code/wikidata_parser.py:43-51 | after adding a batch and checking progress, the dumps followed by the held entities are the index of all kept records, and the counter takes its next value |
| WikidataParser.Loop | parser/code/wikidata_parser.py:36-54 | the loop either raises exactly when running all batches raises, or processes exactly all batches: processed and saved counters grow by the records read and kept, and dumps plus held entities index every kept record |
| WikidataParser.Drive | parser/code/wikidata_parser.py:27-57 | after skipping, the run succeeds exactly when running the extractor over all remaining batches does; then processed and saved grow by the records read and kept, the final dump under the parser's name leaves nothing held, and the dumps read back in order index every kept record |
| ExtendDbpedia.EntityLabel | analyzer/code/extend_dbpedia.py:66-67 | a label is no longer than the resource URI it comes from |
| ExtendDbpedia.LabelSource | analyzer/code/extend_dbpedia.py:66 | a label is as long as the URI's last "/resource/" piece, which is a suffix of the URI holding no "/resource/"; it is as long as the URI exactly when there is no separator, and otherwise directly follows one |
| ExtendDbpedia.LabelChars | analyzer/code/extend_dbpedia.py:67 | each character of the label is the URI's character with "_" turned into a space, so no "_" remains |
| ExtendDbpedia.QuotedLabels | analyzer/code/extend_dbpedia.py:70 | one quoted label per entity |
| ExtendDbpedia.QueryLabels | analyzer/code/extend_dbpedia.py:64-70 | the loop builds `LabelList`: the quoted labels joined by commas |
| ExtendDbpedia.LabelListSplits | analyzer/code/extend_dbpedia.py:70 | splitting the label list on commas gives back the quoted labels, one per entity, when no entity holds a comma |
| ExtendDbpedia.Person | analyzer/code/extend_dbpedia.py:80 | reading a binding without a "value" raises KeyError |
| ExtendDbpedia.PersonMeaning | analyzer/code/extend_dbpedia.py:80 | a person is read exactly when every binding holds a "value", and then each key maps to its binding's value |
| ExtendDbpedia.AddResult | analyzer/code/extend_dbpedia.py:80-81 | a result is stored exactly when the person has an "id", under that id; otherwise KeyError |
| ExtendDbpedia.Results | analyzer/code/extend_dbpedia.py:77-81 | every failure is a KeyError |
| ExtendDbpedia.ResultsFailPersists | analyzer/code/extend_dbpedia.py:78-81 | once a binding raises, the whole loop raises with that error |
| ExtendDbpedia.ResultsStep | analyzer/code/extend_dbpedia.py:78-81 | one more binding succeeds exactly when the loop so far did and the binding has an id |
| ExtendDbpedia.ResultsOk | analyzer/code/extend_dbpedia.py:77-81 | the loop succeeds exactly when every binding yields an id |
| ExtendDbpedia.ResultsLast | analyzer/code/extend_dbpedia.py:77-81 | a person is stored under its id, as read from the last binding with that id |
| ExtendDbpedia.CollectResults | analyzer/code/extend_dbpedia.py:77-83 | the loop computes `Results` |
| ExtendDbpedia.FetchedFailPersists | analyzer/code/extend_dbpedia.py:181-190 | once a query raises, the whole loop raises with that error |
| ExtendDbpedia.FetchStops | analyzer/code/extend_dbpedia.py:181-190 | a query that raises ends the loop with that error |
| ExtendDbpedia.FetchMetadata | analyzer/code/extend_dbpedia.py:178-190 | the loop queries the entities in batches of 100 and merges each answer into the entity data, as `Fetched` over the batches |
| ExtendDbpedia.LinkedMeaning | analyzer/code/extend_dbpedia.py:202 | a person is kept exactly when it has a "wdLink", and the kept people keep their order |
| ExtendDbpedia.WdId | analyzer/code/extend_dbpedia.py:102 | a person without "wdLink" raises KeyError |
| ExtendDbpedia.MapInto | analyzer/code/extend_dbpedia.py:108-112 | every failure is a KeyError |
| ExtendDbpedia.MapIntoStep | analyzer/code/extend_dbpedia.py:108-112 | one more answer succeeds exactly when the answers before it did and it maps |
| ExtendDbpedia.MapIntoOkAll | analyzer/code/extend_dbpedia.py:108-112 | when merging succeeds, every answered entity with the predicate has a DBpedia id |
| ExtendDbpedia.MapIntoAllOk | analyzer/code/extend_dbpedia.py:108-112 | when every answered entity with the predicate has a DBpedia id, merging succeeds |
| ExtendDbpedia.MapIntoLast | analyzer/code/extend_dbpedia.py:108-112 | the DBpedia id of an answered entity gets the value of the last answer for it |
| ExtendDbpedia.MapIntoFailPersists | analyzer/code/extend_dbpedia.py:108-112 | once an answer raises, merging the whole response raises |
| ExtendDbpedia.MergeIds | analyzer/code/extend_dbpedia.py:108-112 | the inner loop computes `MergeMapped` |
| ExtendDbpedia.LookupStepBatches | analyzer/code/extend_dbpedia.py:101-106 | a step that succeeds had a "wdLink" and an "id", and groups the Wikidata ids as the shared batching rule does |
| ExtendDbpedia.LookupOkBefore | analyzer/code/extend_dbpedia.py:100-114 | a loop that succeeds succeeded at every earlier point |
| ExtendDbpedia.LookupFailStep | analyzer/code/extend_dbpedia.py:100-114 | after a failure a further step changes nothing |
| ExtendDbpedia.LookupFailPersists | analyzer/code/extend_dbpedia.py:100-114 | once the loop raises, it ends with that error |
| ExtendDbpedia.Links | analyzer/code/extend_dbpedia.py:102 | one Wikidata id per person |
| ExtendDbpedia.LookupBatches | analyzer/code/extend_dbpedia.py:100-114 | the groups the loop sends and its open group are those of the shared batching rule over the people's Wikidata ids |
| ExtendDbpedia.LookupQueriesAll | analyzer/code/extend_dbpedia.py:100-114 | when the loop succeeds, every person's Wikidata id is queried exactly once, in order, in groups of one to 50 |
| ExtendDbpedia.LookupOccGender | analyzer/code/extend_dbpedia.py:85-120 | the loop computes `LookupRun` over all the people |
| ExtendDbpedia.Holders | analyzer/code/extend_dbpedia.py:131-134 | a count of rows is at most the number of rows |
| ExtendDbpedia.HoldersStep | analyzer/code/extend_dbpedia.py:131-134 | one more row adds one exactly when it has the occupation and its subject has the gender |
| ExtendDbpedia.ValueIn | analyzer/code/extend_dbpedia.py:128 | a value found for a key is among the dictionary's values |
| ExtendDbpedia.Increment | analyzer/code/extend_dbpedia.py:134 | incrementing one counter changes no key and no other counter |
| ExtendDbpedia.BumpAt | analyzer/code/extend_dbpedia.py:132-134 | one row adds one exactly to the counter of its occupation and its subject's gender |
| ExtendDbpedia.BumpKeys | analyzer/code/extend_dbpedia.py:132-134 | one row adds no counter and removes none |
| ExtendDbpedia.CountEntry | analyzer/code/extend_dbpedia.py:131-134 | after one more row each counter counts the rows so far with its occupation and gender |
| ExtendDbpedia.CountStep | analyzer/code/extend_dbpedia.py:131-134 | one more row keeps every counter equal to the count of rows so far |
| ExtendDbpedia.CountGenders | analyzer/code/extend_dbpedia.py:127-134 | there is a counter for each occupation and each gender value, counting the rows with that occupation whose subject has that gender |
| ExtendDbpedia.CountBalance | analyzer/code/extend_dbpedia.py:123-144 | with no occupations, or with both genders among the values, the result is, per occupation, the men minus the women with it; otherwise KeyError |
| ExtendDbpedia.TypeNames | analyzer/code/extend_dbpedia.py:211 | one short type name per comma-separated type |
| ExtendDbpedia.OccupationOf | analyzer/code/extend_dbpedia.py:211-214 | a person without "types" (or, when needed, "id") raises KeyError |
| ExtendDbpedia.FirstType | analyzer/code/extend_dbpedia.py:211-214 | a person's occupation triple is `(id, "db_occupation", resource URL + type)` for its first type that is not "Person" |
| ExtendDbpedia.OnlyPerson | analyzer/code/extend_dbpedia.py:212-213 | a person whose only types are "Person" gets no occupation triple |
| ExtendDbpedia.Records | analyzer/code/extend_dbpedia.py:210 | one record per linked person |
| ExtendDbpedia.DbOccupations | analyzer/code/extend_dbpedia.py:209-214 | the loop collects the occupation triples of the linked people, in order, or raises the first error |
| ExtendDbpedia.Numbered | analyzer/code/extend_dbpedia.py:255 | one short name per predicate |
| ExtendDbpedia.PredNamesLast | analyzer/code/extend_dbpedia.py:256 | a short name maps to the last position it occurs at |
| ExtendDbpedia.PredNamesPositions | analyzer/code/extend_dbpedia.py:255-256 | with distinct short names, every predicate is listed at its own position with its position as id |
| ExtendDbpedia.Range | analyzer/code/extend_dbpedia.py:270 | `range(prev, i)` holds the numbers from `prev` to `i - 1`, in order |
| ExtendDbpedia.RangeAppend | analyzer/code/extend_dbpedia.py:270 | consecutive ranges together form the whole range |
| ExtendDbpedia.GroupStepTracks | analyzer/code/extend_dbpedia.py:267-272 | each turn of the loop keeps the closed groups and the open group covering the items so far, with one id per item |
| ExtendDbpedia.GroupRunInvariant | analyzer/code/extend_dbpedia.py:265-272 | the grouping loop as written keeps that invariant |
| ExtendDbpedia.GroupPredicatesAsWritten | analyzer/code/extend_dbpedia.py:264-272 | the loop as written computes `GroupRun` |
| ExtendDbpedia.CloseBeforeLast | analyzer/code/extend_dbpedia.py:268-271 | the loop closes the open group before adding the last item |
| ExtendDbpedia.AsWrittenDropsLast | analyzer/code/extend_dbpedia.py:265-272 | as written, the groups hold every predicate but the last |
| ExtendDbpedia.AsWrittenTwoItems | analyzer/code/extend_dbpedia.py:265-272 | as written, with two predicates only the first is grouped |
| ExtendDbpedia.GroupPredicates | analyzer/code/extend_dbpedia.py:264-272 | as intended, the groups are the batches of 18 of all predicates, and the id lists number every predicate once, in order, one id per clause |
| WomenTriples.NonEmptyMeaning | parser/code/women_to_triples.py:32 | a predicate is kept exactly when its object list is non-empty, and the kept predicates keep their order |
| WomenTriples.ParseBatch | parser/code/women_to_triples.py:29-33 | the loop over a batch computes `ParseAll` |
| WomenTriples.ParseAllGet | parser/code/women_to_triples.py:29-33 | after a batch, a woman in it holds her non-empty predicates and any other woman keeps her earlier data |
| WomenTriples.Load | parser/code/women_to_triples.py:36-43 | the loop over the dumped batches computes `Loaded` |
| WomenTriples.LoadedDistinct | parser/code/women_to_triples.py:36-43 | the merged women have distinct ids |
| WomenTriples.Existing | parser/code/women_to_triples.py:47-48 | an entity exists exactly when it is one of the comma-separated ids |
| WomenTriples.KeepMeaning | parser/code/women_to_triples.py:56 | the filter keeps exactly the objects that exist, in order |
| WomenTriples.CopyFiltered | parser/code/women_to_triples.py:54-60 | the loop computes `FilteredCopy` |
| WomenTriples.FilteredCopyMeaning | parser/code/women_to_triples.py:54-60 | the copy holds every occupation in full under "P106", and for each other predicate the existing objects only |
| WomenTriples.Select | parser/code/women_to_triples.py:50-71 | the loop computes `SelectAll` |
| WomenTriples.SelectHeaps | parser/code/women_to_triples.py:62-69 | an entry is on the heap of an occupation exactly when it is `(-len(claims), id)` for a woman whose first occupation that is |
| WomenTriples.SelectFiltered | parser/code/women_to_triples.py:62-71 | a woman is kept exactly when she has an occupation, with her filtered copy |
| WomenTriples.SelectHeapIds | parser/code/women_to_triples.py:62-69 | no woman is twice on a heap |
| WomenTriples.SelectExclusive | parser/code/women_to_triples.py:62-69 | no woman is on two heaps |
| WomenTriples.BeforeOrder | parser/code/women_to_triples.py:65 | the heap order on `(count, id)` pairs is a strict total order |
| WomenTriples.Least | parser/code/women_to_triples.py:83 | the popped entry is on the heap |
| WomenTriples.LeastIsLeast | parser/code/women_to_triples.py:83 | no entry on the heap comes before the popped one |
| WomenTriples.RemoveCount | parser/code/women_to_triples.py:83 | popping removes exactly the popped entry |
| WomenTriples.RemoveDistinct | parser/code/women_to_triples.py:83 | popping keeps ids distinct and leaves no entry with the popped id |
| WomenTriples.PopsResult | parser/code/women_to_triples.py:82-83 | `k` pops succeed exactly when the heap holds at least `k` entries, give `k` entries, and otherwise raise IndexError |
| WomenTriples.PopsFrom | parser/code/women_to_triples.py:82-83 | the popped entries come from the heap |
| WomenTriples.PopsSorted | parser/code/women_to_triples.py:82-83 | the entries come out in heap order |
| WomenTriples.PopsBest | parser/code/women_to_triples.py:82-83 | no entry left on the heap comes before a popped one: the women with the most predicates are taken |
| WomenTriples.PopsDistinct | parser/code/women_to_triples.py:82-83 | no woman is popped twice |
| WomenTriples.PopWomen | parser/code/women_to_triples.py:82-84 | the loop appends the ids of `Pops`, or raises its error |
| WomenTriples.ChosenResult | parser/code/women_to_triples.py:78-84 | the selection succeeds exactly when every occupation has a heap holding at least the required number of women; it then takes the sum of the required numbers, each from one of the heaps |
| WomenTriples.ChosenDistinct | parser/code/women_to_triples.py:78-84 | no woman is chosen twice |
| WomenTriples.ChosenFailPersists | parser/code/women_to_triples.py:78-84 | once an occupation raises, the whole selection raises with that error |
| WomenTriples.ChosenStep | parser/code/women_to_triples.py:79-84 | an occupation without a heap raises KeyError; otherwise its pops are appended |
| WomenTriples.ChooseWomen | parser/code/women_to_triples.py:78-84 | the loop over the occupations returns the ids of `Chosen`, or its error |
| WomenTriples.ObjectTriples | parser/code/women_to_triples.py:92-93 | one triple per object, `(id, predicate, object)` |
| WomenTriples.WomanTriplesMeaning | parser/code/women_to_triples.py:89-93 | a triple is written for a woman exactly when it is one of her facts and its predicate is not "P31" |
| WomenTriples.EmitResult | parser/code/women_to_triples.py:86-93 | writing succeeds exactly when every chosen id was kept, and the triples are exactly the chosen women's facts other than "P31" |
| WomenTriples.AppendWoman | parser/code/women_to_triples.py:89-93 | the inner loops append exactly one woman's triples |
| WomenTriples.EmitTriples | parser/code/women_to_triples.py:86-93 | the loop computes `Emit` |
| WomenTriples.EmitFailPersists | parser/code/women_to_triples.py:87-88 | once an id raises, the whole output raises |
| WomenTriples.WomenToTriples | parser/code/women_to_triples.py:35-93 | the script computes `Script` for the five required occupations |
| WomenTriples.ChosenWomen | parser/code/women_to_triples.py:78-88 | the chosen women are distinct and were all kept, so writing them succeeds |
| WomenTriples.ScriptResult | parser/code/women_to_triples.py:75-93 | the script succeeds exactly when every required occupation has enough women |

## Left out

- File and stream I/O: gzip reading, `readline`/`readlines` chunk sizes, pickle dumps and loads, CSV and text writes (parser/code/entityparsers/manager.py:50-51, analyzer/code/extend_dbpedia.py:90-98 and 116-118). A dump is a `Manager.Dump` value appended to a sequence. The dump file is a sequence of lines read through a cursor. `lookup_wd_occ_gender` is modelled without its on-disk cache.
- JSON decoding (`json.loads`): records arrive as decoded `Record.Entity` values, and `ParserHelper.ReadLines` takes the decoder as a parameter.
- The network: the Wikidata `wbgetentities` request and the DBpedia SPARQL requests, with their URL quoting. The decoded answers are function parameters (`respond`, `answer`).
- pandas plumbing: `read_table`, `drop_duplicates`, `value_counts`, the removal of rare predicates, the `sample(frac=1)` shuffles and `random.sample`. Tables are sequences of triples. The float averages of `check_num_outlinks` and the float ratios are left out because they are floating point.
- Wall-clock time: `running_time` and the elapsed-time prints.
- The embedding code: analyzer/code/run_ampli.py and the `restore_model`/`query_topn` parts of analyzer/code/analyze.py, which wrap ampligraph and TensorFlow.
- parser/code/entityparsers/coordinates.py is not part of this model. It is not in the extractor registry.
- The later steps of analyzer/code/extend_dbpedia.py: the per-occupation queries for extra women (lines 275-316) and the duplicate handling, ranking and removal after them (lines 322-385). They are network calls and pandas operations over iteration orders that Python leaves undefined.
- Set iteration order: `common_occupations` in women_to_triples.py is a Python set. Its iteration order is a parameter (`order`) of `WomenTriples.WomenToTriples`, and every property proved about the output holds for any order. `all_entities`/`unique()` keep first-occurrence order.
- heapq layout: a heap is the sequence of entries pushed. A pop takes the least entry under the `(count, id)` tuple order, which is what `heappop` returns whatever the array layout.
- `argparse`, `get_path`, `print` and logging.
- Python's `int` and `str` are unbounded integers and `seq<char>`. There is no Unicode normalisation.
- Record.LabelKeys: a JSON-null "labels" is read like an absent one and gives no languages. `list(data.get('labels', {}).keys())` (parser/code/entityparsers/human.py:30, human_temp.py:67, human_def.py:101) would raise AttributeError there. The records of a Wikidata JSON dump carry "labels" as an object, so `HumanParser.Extract`, `HumanTempParser.Extract` and `HumanDefParser.Extract` do not model that error.
- ParserHelper.FrameDocument: the round trip covers the layout in which every record line ends in ",". A last record line without the comma would lose its closing brace to `[:-2]` (parser/code/helper.py:26), and decoding it would fail. That layout is not modelled.
- Analyze.RoundTrip: the round trip starts from the written lines. Writing humans.txt and reading it back with `splitlines` (analyzer/code/analyze.py:47) is not modelled. A key or value holding a line break would split one written line into several.
- `Manager.DataMgr.Size` and `Manager.DataMgr.Processed` (`get_size`, `get_processed`) read one field each and carry no contract of their own.

## Findings

| source | as written | input that shows it | evidently intended | confidence | as-written member | corrected member |
|---|---|---|---|---|---|---|
| analyzer/code/extend_dbpedia.py:265-272 | the open group is closed before the current predicate is added, and the last close happens at the last index, so the last predicate's OPTIONAL clause is added after the final close and is never queried; a single predicate is never grouped at all | two predicates `a`, `b`: `pred_groups` is `[a]` only | every predicate lands in exactly one group of at most 18, with its id in the matching id list | high, not executed | ExtendDbpedia.GroupPredicatesAsWritten, ExtendDbpedia.AsWrittenDropsLast, ExtendDbpedia.AsWrittenTwoItems | ExtendDbpedia.GroupPredicates |
