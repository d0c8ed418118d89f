# bipbip POI core in Dafny

bipbip is a road-hazard service. Drivers report points of interest (POIs): speed cameras, accidents, roadworks and the like. A server keeps them and counts the votes other drivers cast on them:
- a confirmation when someone reports the same hazard again;
- a refutation when someone declares it "not seen".

Clients show the POIs on a map and keep their copy in step with the server through a line-oriented text protocol. The repository carries two generations of this code, and this project models both:
- the current one: `data/PoiList`, `data/ServerPoiList`, `client/ServerCommunication` and the client models;
- the legacy one: the sorted-set stores `PoiList`/`POIList`, `ServerPoiList`/`ServerPOIList`, the `ClientCommandHandler`, `ClientCommand`, the legacy `ServerCommandHandler` and `MapPOIModelUpdater`.

What the model covers:
- **Values and types.** A reported POI is a value, `Reports.Report`. Dafny's `==` on it is `AbstractReportedPoi.equals`, which compares the place, type and date and also both counters. The legacy POIs (`SimplePOI` and its subclasses) keep `Object`'s identity `equals`; the model compares them by value too (see "## Left out"). The object with its setters is `Reports.ReportedPoi`. The type enums are `PoiTypes`, `LegacyPoiTypes` and `EventTypes`. Java's `int` is `Numbers.int32`, with wrap-around written out.
- **Server stores.** `ServerStore` (current list store), `ServerPoiLists` (current vote rules and the XML save file, on `XmlDatabase`), `SortedStores` (legacy sorted-set stores) and `LegacyConsensus` (legacy vote rules). Each store is a class whose fields are the lists the Java code mutates. Listeners are an event log.
- **Protocol.** `CommandHandler` (legacy server-side token parser), `Dispatcher` (per-connection dispatch loop), `CurrentProtocol` (current INFOS encoder, client command lines and the client's INFOS decoder), `LegacyProtocol` (legacy encoder, decoder and command lines), `NetUtils` (line termination and UTF-8) and `Text` (a `java.util.Scanner` over the unread input).
- **Client models.** `ClientModels` (`MapPoiModel`, the model with a task queue `ServerPoiModel`), `ModelSync` (the list-sync specifications both client updaters are proved against) and `ModelUpdaters` (`MapPoiModelUpdater` and the legacy `MapPOIModelUpdater`, here `LegacyMapPoiModelUpdater`).

Distances, double parsing and printing, and date formats are library or floating-point code. They come in as parameters: a distance function, and `Text.Codec` values. A round trip through a codec is assumed only for the values a lemma is about (`Text.ReadsBack`), since Double.toString cannot spell out every real and a date format without milliseconds loses them. Sockets become a `NetUtils.Channel` that records what was written, plus the text the peer sends.

## Model

| member | source | states |
|---|---|---|
| Comparators.Dominance | BipBipShared/src/fr/umlv/ig/bipbip/poi/POIComparator.java:32-39 | compare answers only -1, 0 or 1 |
| Comparators.DominanceZeroIffEqual | BipBipShared/src/fr/umlv/ig/bipbip/poi/POIComparator.java:33-36 | POIComparator answers 0 exactly when the two POIs are equal (value equality; see "## Left out"), so compare(a, a) = 0 |
| Comparators.DominanceGreaterIsStrictOrder | BipBipShared/src/fr/umlv/ig/bipbip/poi/POIComparator.java:33-34 | its "greater" is irreflexive, asymmetric and transitive |
| Comparators.DominanceNotAntisymmetric | BipBipShared/src/fr/umlv/ig/bipbip/poi/POIComparator.java:32-39 | two distinct POIs where neither dominates both compare as -1, so the Comparator contract fails |
| Comparators.SouthEast | Server/src/fr/umlv/ig/bipbip/server/data/PoiComparatorSouthEast.java:33-41 | compare answers only -1, 0 or 1 |
| Comparators.SouthEastZeroIffSamePlace | Server/src/fr/umlv/ig/bipbip/server/data/PoiComparatorSouthEast.java:36-37 | PoiComparatorSouthEast answers 0 exactly for POIs at the same place, whatever their type, date or counters |
| Comparators.SouthEastInconsistentWithEquals | Server/src/fr/umlv/ig/bipbip/server/data/PoiComparatorSouthEast.java:36-37 | an accident and roadworks at one place are unequal yet compare as 0 |
| Comparators.SouthEastGreaterIsStrictOrder | Server/src/fr/umlv/ig/bipbip/server/data/PoiComparatorSouthEast.java:34-37 | compare(a, a) = 0, and its "greater" is asymmetric and transitive |
| Comparators.SouthEastNotAntisymmetric | Server/src/fr/umlv/ig/bipbip/server/data/PoiComparatorSouthEast.java:33-41 | a POI north-east of another is "less" in both directions |
| Numbers.Wrap | BipBipShared/src/fr/umlv/ig/bipbip/poi/AbstractReportedPoi.java:166-172 | int arithmetic is the mathematical value modulo 2^32, and equals it inside the int range |
| Numbers.Inc | Server/src/fr/umlv/ig/bipbip/server/data/ServerPoiList.java:74 | `x + 1` on an int is x + 1 modulo 2^32, and exactly x + 1 below Integer.MAX_VALUE |
| Numbers.NatToString | Server/src/fr/umlv/ig/bipbip/server/ServerCommand.java:33 | the decimal form of a count is non-empty digits without a leading zero |
| Numbers.NatToStringValue | Server/src/fr/umlv/ig/bipbip/server/ServerCommand.java:33 | the digits written for a count denote that count |
| Numbers.ParseInt | Client/src/fr/umlv/ig/bipbip/ServerCommandHandler.java:53-60 | Integer.parseInt accepts a non-empty string, and a string of digits gives its decimal value |
| Numbers.IntRoundTrip | Client/src/fr/umlv/ig/bipbip/ServerCommandHandler.java:57 | what Integer.toString writes, Integer.parseInt reads back |
| Reports.ConfirmationChangesHash | BipBipShared/src/fr/umlv/ig/bipbip/poi/AbstractReportedPoi.java:165-174 | one more confirmation always changes hashCode |
| Reports.MixShift | BipBipShared/src/fr/umlv/ig/bipbip/poi/AbstractReportedPoi.java:171-172 | a difference d in one field of the `29 * hash + field` chain carries through the chain modulo 2^32 |
| Reports.ReportedPoi.constructor | BipBipShared/src/fr/umlv/ig/bipbip/poi/AbstractReportedPoi.java:42-52 | a new POI keeps its place, type and date and starts with 0 confirmations and 0 refutations |
| Reports.ReportedPoi.SetConfirmations | BipBipShared/src/fr/umlv/ig/bipbip/poi/AbstractReportedPoi.java:120-122 | only the confirmation counter changes |
| Reports.ReportedPoi.SetNbNotSeen | BipBipShared/src/fr/umlv/ig/bipbip/poi/AbstractReportedPoi.java:130-132 | only the refutation counter changes |
| Reports.ReportedPoi.Equals | BipBipShared/src/fr/umlv/ig/bipbip/poi/AbstractReportedPoi.java:135-162 | equals is false for null, and otherwise holds exactly when all six fields agree |
| Reports.ReportedPoi.HashCode | BipBipShared/src/fr/umlv/ig/bipbip/poi/AbstractReportedPoi.java:165-174 | hashCode is the chain over the six fields seeded with 3 |
| Reports.HashConsistentWithEquals | BipBipShared/src/fr/umlv/ig/bipbip/poi/AbstractReportedPoi.java:135-174 | POIs whose six fields equals compares all agree have equal hash codes (by construction) |
| PoiTypes.ValueOf | Client/src/fr/umlv/ig/bipbip/client/ServerCommunication.java:184 | valueOf answers only the constant whose name is the string |
| PoiTypes.ValueOfName | BipBipShared/src/fr/umlv/ig/bipbip/poi/PoiType.java:31-65 | valueOf(s) is t exactly when s is t's name, for each of the five constants |
| PoiTypes.TitlesAndImagesDistinct | BipBipShared/src/fr/umlv/ig/bipbip/poi/PoiType.java:31-65 | no two constants share a title or an image name |
| PoiTypes.ImagesArePng | BipBipShared/src/fr/umlv/ig/bipbip/poi/PoiType.java:80-82 | every image name ends in ".png" |
| PoiTypes.ConstructPoi | BipBipShared/src/fr/umlv/ig/bipbip/poi/PoiType.java:34-63 | constructPOI keeps the constant as the type, keeps lat, lon and date, and starts both counters at 0 |
| PoiTypes.ConstructConfirmedPoi | Client/src/fr/umlv/ig/bipbip/client/ServerCommunication.java:186 | the decoder's factory is constructPOI with the confirmation count the server sent |
| LegacyPoiTypes.ConstructPOI | BipBipShared/src/fr/umlv/ig/bipbip/poi/POIType.java:59-74 | every constant has a case, so the default throw is never reached; the POI has that type, place and date and zero counters |
| LegacyPoiTypes.SameAsPoiType | BipBipShared/src/fr/umlv/ig/bipbip/poi/POIType.java:31-35 | the five legacy titles and image names are those of PoiType, constant for constant |
| EventTypes.ValueOf | Server/src/fr/umlv/ig/bipbip/server/ClientCommandHandler.java:60 | EventType.valueOf answers only the constant bearing that name |
| EventTypes.ValueOfName | BipBipShared/src/fr/umlv/ig/bipbip/EventType.java:28-32 | valueOf(s) is t exactly when s is t's name |
| Listeners.Registry.Add | Client/src/fr/umlv/ig/bipbip/client/MapPoiModel.java:41-45 | a null listener is rejected and nothing changes; otherwise it is appended; the server store's addListener, Server/src/fr/umlv/ig/bipbip/server/data/PoiList.java:79-83, registers in the same way |
| Listeners.Registry.Remove | Client/src/fr/umlv/ig/bipbip/client/MapPoiModel.java:48-52 | a null listener is rejected; otherwise its first registration is dropped; the server store's removeListener, Server/src/fr/umlv/ig/bipbip/server/data/PoiList.java:90-94, drops in the same way |
| Listeners.Registry.constructor | Client/src/fr/umlv/ig/bipbip/client/MapPoiModel.java:33 | a new registry holds no listener |
| Lists.RemoveFirst | Client/src/fr/umlv/ig/bipbip/client/MapPoiModel.java:103 | Collection.remove(Object) takes exactly one occurrence away from the multiset of elements when the element is there, and changes nothing otherwise |
| Lists.IndexOf | Client/src/fr/umlv/ig/bipbip/poi/MapPOIModel.java:109 | the index remove(Object) finds is the first occurrence, and is the length exactly when the element is absent |
| Lists.RemoveFirstAt | Client/src/fr/umlv/ig/bipbip/poi/MapPOIModel.java:109 | remove(Object) drops the element at its first occurrence and keeps the rest in order |
| Lists.ReplaceFirst | Client/src/fr/umlv/ig/bipbip/client/model/ServerPoiModel.java:132-136 | a setter applied to the first element equal to a POI keeps the list's length |
| Lists.ReplaceFirstAt | Client/src/fr/umlv/ig/bipbip/client/model/ServerPoiModel.java:132-136 | that element, at the first equal index, is the only one changed |
| Lists.ReplaceFirstAbsent | Client/src/fr/umlv/ig/bipbip/client/model/ServerPoiModel.java:132-136 | when no element is equal nothing changes |
| Lists.ReplaceFirstMultiset | Client/src/fr/umlv/ig/bipbip/client/model/ServerPoiModel.java:132-136 | the replaced value leaves the multiset of values and its replacement enters it |
| Lists.AppendAbsent | Client/src/fr/umlv/ig/bipbip/client/MapPoiModelUpdater.java:80-84 | adding the fetched POIs the live list lacks keeps the old list as a prefix and adds at most one per fetched POI |
| Lists.AppendAbsentMembers | Client/src/fr/umlv/ig/bipbip/client/MapPoiModelUpdater.java:80-84 | afterwards the list holds exactly what it held plus the fetched POIs |
| Lists.AppendAbsentKeepsDistinct | Client/src/fr/umlv/ig/bipbip/client/MapPoiModelUpdater.java:80-84 | a list without duplicates gains none, even from a fetch with duplicates |
| Lists.KeepIn | Client/src/fr/umlv/ig/bipbip/client/MapPoiModelUpdater.java:75-79 | what the removal loop keeps is in both the old list and the fetch, and is no longer than the old list |
| Lists.KeepInMembers | Client/src/fr/umlv/ig/bipbip/client/MapPoiModelUpdater.java:75-79 | a POI stays exactly when it was local and was fetched |
| Lists.KeepInAppend | Client/src/fr/umlv/ig/bipbip/client/MapPoiModelUpdater.java:75-79 | the removal loop works element by element: over two halves it keeps what it keeps of each |
| NetUtils.TerminatedShape | Server/src/fr/umlv/ig/bipbip/server/communication/NetUtils.java:16-20 | the text sent ends in a newline, starts with the line, and adds at most one character |
| NetUtils.TerminatedIdempotent | BipBipShared/src/fr/umlv/ig/bipbip/NetUtils.java:18-20 | a line already ending in a newline is sent unchanged, so terminating twice is terminating once |
| NetUtils.TerminatedPlain | Server/src/fr/umlv/ig/bipbip/server/communication/NetUtils.java:17-19 | a line without a newline gets exactly one |
| NetUtils.Channel.WriteLine | BipBipShared/src/fr/umlv/ig/bipbip/NetUtils.java:17-22 | writeLine appends the terminated line to what the channel has sent |
| NetUtils.Channel.Write | Client/src/fr/umlv/ig/bipbip/client/ServerCommunication.java:88 | a whole-buffer write appends the text unchanged |
| NetUtils.Channel.Close | Client/src/fr/umlv/ig/bipbip/client/ServerCommunication.java:208-213 | close leaves the channel closed with what was sent kept |
| NetUtils.Channel.constructor | Client/src/fr/umlv/ig/bipbip/client/ServerCommunication.java:199-206 | a newly connected channel is open and has sent nothing |
| NetUtils.TranscriptAppend | Server/src/fr/umlv/ig/bipbip/server/communication/ServerCommand.java:32-35 | two runs of writeLine send their two texts one after the other |
| NetUtils.TranscriptSnoc | Server/src/fr/umlv/ig/bipbip/server/communication/ServerCommand.java:33-35 | one more writeLine adds its terminated line at the end |
| NetUtils.EncodeChar | BipBipShared/src/fr/umlv/ig/bipbip/NetUtils.java:21 | UTF-8 encodes one character in one to four bytes |
| NetUtils.Utf8RoundTrip | BipBipShared/src/fr/umlv/ig/bipbip/NetUtils.java:12 | decoding the UTF-8 bytes written gives the text back; the same file's line 21 takes part too |
| NetUtils.Utf8OfAscii | BipBipShared/src/fr/umlv/ig/bipbip/NetUtils.java:21 | ASCII text is written one byte per character, its code |
| NetUtils.Utf8Append | BipBipShared/src/fr/umlv/ig/bipbip/NetUtils.java:21 | the UTF-8 bytes of two texts are the two encodings one after the other |
| NetUtils.WrittenBytesEndInNewline | BipBipShared/src/fr/umlv/ig/bipbip/NetUtils.java:17-22 | whatever the line, the last byte written is 0x0A |
| Text.NextToken | Server/src/fr/umlv/ig/bipbip/server/ClientCommandHandler.java:60 | Scanner.next() yields a non-empty token without whitespace and consumes it |
| Text.TokenThen | Server/src/fr/umlv/ig/bipbip/server/ClientCommandHandler.java:60 | a token followed by whitespace or nothing is read as that token, and reading goes on after it |
| Text.LineFrom | Server/src/fr/umlv/ig/bipbip/server/ClientCommandHandler.java:75 | Scanner.nextLine() fails exactly on empty input, and consumes input whenever it yields a line |
| Text.LineFromNoBreak | Server/src/fr/umlv/ig/bipbip/server/ClientCommandHandler.java:75 | the line nextLine() yields holds no newline |
| Text.LineThen | Server/src/fr/umlv/ig/bipbip/server/ClientCommandHandler.java:75 | a line followed by a newline is read as that line, and reading goes on after the newline |
| Text.LineAtEnd | Server/src/fr/umlv/ig/bipbip/server/ClientCommandHandler.java:75 | a last line without a newline is read to the end of the input |
| Text.LineFromAt | Server/src/fr/umlv/ig/bipbip/server/ClientCommandHandler.java:75 | the line nextLine() yields is exactly the characters before the first newline, or all of them when there is none, and reading goes on after that newline |
| Text.SplitOnSpace | Client/src/fr/umlv/ig/bipbip/client/ServerCommunication.java:183 | String.split(" ") yields pieces without a space |
| Text.SplitOfJoin | Client/src/fr/umlv/ig/bipbip/client/ServerCommunication.java:183 | split(" ") gives back the fields a line was joined from, when the last one is not empty |
| Text.PiecesOfJoin | Client/src/fr/umlv/ig/bipbip/client/ServerCommunication.java:183 | the pieces between the single spaces of a joined line are its fields |
| Text.DropLeadingSpaces | Server/src/fr/umlv/ig/bipbip/server/ClientCommandHandler.java:81-83 | what is left is a suffix that does not start with a space, and everything cut off was a space |
| Text.StripLeadingSpaces | Client/src/fr/umlv/ig/bipbip/ServerCommandHandler.java:54-56 | the substring(1) loop leaves exactly that suffix |
| Text.Scanner.Next | Server/src/fr/umlv/ig/bipbip/server/ClientCommandHandler.java:53-60 | next() consumes the next token; with none left it throws (None) and consumes nothing |
| Text.Scanner.NextDouble | Server/src/fr/umlv/ig/bipbip/server/ClientCommandHandler.java:64-71 | nextDouble() consumes a token that parses as a double; otherwise it fails and consumes nothing |
| Text.Scanner.NextLine | Server/src/fr/umlv/ig/bipbip/server/ClientCommandHandler.java:75 | nextLine() consumes the rest of the line and its newline; at the end of the input it throws (None) |
| ServerStore.PoisInAreaMembers | Server/src/fr/umlv/ig/bipbip/server/data/PoiList.java:172-183 | a POI is in getPoisInArea's answer exactly when it is active and within the radius, of the asked type (if any) and of the asked date (if any) |
| ServerStore.WiderQueries | Server/src/fr/umlv/ig/bipbip/server/data/PoiList.java:198-200 | the overloads that drop the date, then the type, never lose a POI the full query returns; the same file's lines 214-216 take part too |
| ServerStore.PoisInAreaAppend | Server/src/fr/umlv/ig/bipbip/server/data/PoiList.java:172-183 | the query over a list made of two parts is the query over each part, in order |
| ServerStore.PoisInAreaReplace | Server/src/fr/umlv/ig/bipbip/server/data/PoiList.java:172-183 | replacing a POI in place by one that passes the same filter replaces it in the answer too |
| ServerStore.PoisInAreaRemove | Server/src/fr/umlv/ig/bipbip/server/data/PoiList.java:148-155 | removing a POI from the active list removes its first occurrence from the answer; the same file's lines 172-183 take part too |
| ServerStore.ActiveAsOfMembers | Server/src/fr/umlv/ig/bipbip/server/data/PoiList.java:245-253 | an active POI is part of the history at date t exactly when it was reported at or before t |
| ServerStore.RemovedAsOfMembers | Server/src/fr/umlv/ig/bipbip/server/data/PoiList.java:256-264 | a removed POI is part of the history at date t exactly when it was reported at or before t and removed at or after t |
| ServerStore.AsOfMembers | Server/src/fr/umlv/ig/bipbip/server/data/PoiList.java:242-268 | the history at date t is the union of the two cases above |
| ServerStore.MinDate | Server/src/fr/umlv/ig/bipbip/server/data/PoiList.java:249-251 | the minimum never exceeds the value passed in; the same file's lines 260-262 take part too |
| ServerStore.MinDateBounds | Server/src/fr/umlv/ig/bipbip/server/data/PoiList.java:249-251 | the minimum is at or below every date of the answer and is either the value passed in or one of those dates; the same file's lines 260-262 take part too |
| ServerStore.PoiList.constructor | Server/src/fr/umlv/ig/bipbip/server/data/PoiList.java:36-41 | a new list has no active POI, no removed POI, no listener and fires nothing; the same file's lines 71-72 take part too |
| ServerStore.PoiList.Fire | Server/src/fr/umlv/ig/bipbip/server/data/PoiList.java:101-127 | one event, delivered to exactly the listeners registered at the time |
| ServerStore.PoiList.AddPoi | Server/src/fr/umlv/ig/bipbip/server/data/PoiList.java:137-141 | the POI is appended to the active list and a PoiAdded event is fired |
| ServerStore.PoiList.RemovePoi | Server/src/fr/umlv/ig/bipbip/server/data/PoiList.java:148-155 | the first equal active POI leaves the list, it joins the removed list stamped with the removal date, and a PoiRemoved event is fired |
| ServerStore.PoiList.GetPoisInArea | Server/src/fr/umlv/ig/bipbip/server/data/PoiList.java:172-183 | the answer is the active POIs passing the filter, in list order |
| ServerStore.PoiList.GetPoisInAreaOfType | Server/src/fr/umlv/ig/bipbip/server/data/PoiList.java:198-200 | the same query with any date |
| ServerStore.PoiList.GetPoisAround | Server/src/fr/umlv/ig/bipbip/server/data/PoiList.java:214-216 | the same query with any type and any date |
| ServerStore.PoiList.GetAllPois | Server/src/fr/umlv/ig/bipbip/server/data/PoiList.java:242-268 | the answer is the history at date t and the returned minimum is the passed minimum lowered to the oldest date of the answer |
| ServerStore.PoiList.GetSize | Server/src/fr/umlv/ig/bipbip/server/data/PoiList.java:275-277 | the number of active POIs |
| ServerStore.PoiList.UpdatePoi | Server/src/fr/umlv/ig/bipbip/server/data/PoiList.java:287-293 | the old POI leaves the active list, the new one is appended, and a removal then an addition are fired; the removed list is untouched |
| ServerStore.RemovalKeepsHistory | Server/src/fr/umlv/ig/bipbip/server/data/PoiList.java:148-155 | removing a POI at date now leaves the history at every date up to now unchanged; the same file's lines 242-268 take part too |
| ServerPoiLists.NotSeenUnknown | Server/src/fr/umlv/ig/bipbip/server/data/ServerPoiList.java:61-78 | a "not seen" report matching no active POI changes nothing and fires nothing |
| ServerPoiLists.NotSeenSingleRemoves | Server/src/fr/umlv/ig/bipbip/server/data/ServerPoiList.java:69-73 | a sole match whose next refutation reaches NB_REFUTATION_FOR_DELETE leaves the active POIs for the removed ones, stamped with the current date, and no longer matches |
| ServerPoiLists.NotSeenSingleRefutes | Server/src/fr/umlv/ig/bipbip/server/data/ServerPoiList.java:69-77 | a sole match below the threshold stays in place with one more refutation and is still the only match |
| ServerPoiLists.ThirdRefutationRemoves | Server/src/fr/umlv/ig/bipbip/server/data/ServerPoiList.java:49 | a fresh POI survives two "not seen" reports and is removed by the third, stamped with the third's date; the same file's lines 61-78 take part too |
| ServerPoiLists.RefuteAllOutside | Server/src/fr/umlv/ig/bipbip/server/data/ServerPoiList.java:61-78 | notSeen leaves every POI outside the queried area alone, only appends to the removed list and fires once per POI found |
| ServerPoiLists.ConfirmAllFrame | Server/src/fr/umlv/ig/bipbip/server/data/ServerPoiList.java:94-108 | confirming keeps the number of active POIs and every POI outside the area, removes nothing, and fires one update per confirmation carrying the submitted report |
| ServerPoiLists.SecondReportConfirms | Server/src/fr/umlv/ig/bipbip/server/data/ServerPoiList.java:94-108 | the same report made twice with nothing of its type nearby is added once, then confirmed rather than duplicated |
| ServerPoiLists.WritePoi | Server/src/fr/umlv/ig/bipbip/server/data/ServerPoiList.java:139-165 | one poi element per POI of the list, in list order, as the document format specifies |
| ServerPoiLists.CheckFileVersion | Server/src/fr/umlv/ig/bipbip/server/data/ServerPoiList.java:182-190 | the loop over the points element's attributes rejects exactly the files the version rule rejects |
| ServerPoiLists.ReadPoiAttributes | Server/src/fr/umlv/ig/bipbip/server/data/ServerPoiList.java:197-211 | the attribute loop of a poi element reads its fields, and the first attribute that does not parse aborts the load |
| ServerPoiLists.ReadPoiStart | Server/src/fr/umlv/ig/bipbip/server/data/ServerPoiList.java:193-223 | a poi start tag: the attribute loop, then the type and date checks, then the POI's construction |
| ServerPoiLists.ServerPoiList.constructor | Server/src/fr/umlv/ig/bipbip/server/data/ServerPoiList.java:42 | a new store is empty and has no listener; the same file's line 168 takes part too |
| ServerPoiLists.ServerPoiList.NotSeen | Server/src/fr/umlv/ig/bipbip/server/data/ServerPoiList.java:61-78 | each active POI matching the report's place, type and date is refuted once, in query order: removed at the threshold, otherwise counted and announced |
| ServerPoiLists.ServerPoiList.AddPoi | Server/src/fr/umlv/ig/bipbip/server/data/ServerPoiList.java:94-108 | a report with nothing of its type within PRECISION is appended; otherwise every such POI gets one more confirmation |
| ServerPoiLists.ServerPoiList.SaveToFile | Server/src/fr/umlv/ig/bipbip/server/data/ServerPoiList.java:115-137 | the points element carrying the version, with the active POIs and then the removed ones |
| ServerPoiLists.ServerPoiList.ReadFromFile | Server/src/fr/umlv/ig/bipbip/server/data/ServerPoiList.java:167-250 | the load fails exactly when the document's reading fails, with the same error; otherwise a fresh store holds the active and removed POIs read, and no listener hears of them |
| XmlDatabase.CheckVersion | Server/src/fr/umlv/ig/bipbip/server/data/ServerPoiList.java:182-190 | a failure of the version check is always an invalid-version error |
| XmlDatabase.CheckVersionPasses | Server/src/fr/umlv/ig/bipbip/server/data/ServerPoiList.java:182-190 | the points element passes exactly when every version attribute it carries equals XML_VERSION |
| XmlDatabase.CheckVersionSticky | Server/src/fr/umlv/ig/bipbip/server/data/ServerPoiList.java:183-188 | once a version attribute has failed, the attributes after it do not change the outcome |
| XmlDatabase.WrongVersionRejected | Server/src/fr/umlv/ig/bipbip/server/data/ServerPoiList.java:182-188 | a file whose points element carries another version fails to load with an invalid-version error |
| XmlDatabase.ReadAttributesSticky | Server/src/fr/umlv/ig/bipbip/server/data/ServerPoiList.java:197-211 | once an attribute has failed to parse, the attributes after it do not change the outcome |
| XmlDatabase.ReadAttributesFields | Server/src/fr/umlv/ig/bipbip/server/data/ServerPoiList.java:193-211 | after a successful attribute loop the type is set exactly when a type attribute is present, and likewise the date |
| XmlDatabase.PoiNeedsTypeAndDate | Server/src/fr/umlv/ig/bipbip/server/data/ServerPoiList.java:215-220 | a poi element is accepted only with both a type and a date; without a type it fails with "Type undefined", with a type but no date with "Date undefined" |
| XmlDatabase.IncompletePoiRejected | Server/src/fr/umlv/ig/bipbip/server/data/ServerPoiList.java:179-223 | reaching a poi element that lacks a type or a date makes the whole load fail |
| XmlDatabase.Step | Server/src/fr/umlv/ig/bipbip/server/data/ServerPoiList.java:180-246 | a successful turn of the reader loop consumes at least one event and stays within the document |
| XmlDatabase.RunStep | Server/src/fr/umlv/ig/bipbip/server/data/ServerPoiList.java:179-247 | a successful turn hands over to the rest of the loop |
| XmlDatabase.RunFails | Server/src/fr/umlv/ig/bipbip/server/data/ServerPoiList.java:179-247 | the first exception ends the load with that error |
| XmlDatabase.RouteAll | Server/src/fr/umlv/ig/bipbip/server/data/ServerPoiList.java:237-244 | routing finished POIs moves neither the reader nor currentPoi |
| XmlDatabase.RouteAllActive | Server/src/fr/umlv/ig/bipbip/server/data/ServerPoiList.java:237-239 | POIs without a removal date all go, in order, to the active list |
| XmlDatabase.RouteAllRemoved | Server/src/fr/umlv/ig/bipbip/server/data/ServerPoiList.java:240-242 | POIs with a removal date all go, in order, to the removed list |
| XmlDatabase.RouteAllAppend | Server/src/fr/umlv/ig/bipbip/server/data/ServerPoiList.java:237-244 | routing two runs of POIs is routing the first, then the second |
| XmlDatabase.StepPoiStart | Server/src/fr/umlv/ig/bipbip/server/data/ServerPoiList.java:142-146 | a written poi start tag reads back as a POI with the written type, position and date and zero counters, when the doubles read back that POI's coordinates and the date format parses its date; the same file's lines 191-223 take part too |
| XmlDatabase.StepConfirmations | Server/src/fr/umlv/ig/bipbip/server/data/ServerPoiList.java:148-150 | a written confirmations element sets currentPoi's confirmations to the written value; the same file's lines 224-225 take part too |
| XmlDatabase.StepRefutations | Server/src/fr/umlv/ig/bipbip/server/data/ServerPoiList.java:152-154 | a written refutations element sets currentPoi's refutations to the written value; the same file's lines 226-227 take part too |
| XmlDatabase.StepRemovedDate | Server/src/fr/umlv/ig/bipbip/server/data/ServerPoiList.java:156-160 | a written removedDate element whose date the format parses sets currentPoi's removal date to the date read back; the same file's lines 228-233 take part too |
| XmlDatabase.StepPoiEnd | Server/src/fr/umlv/ig/bipbip/server/data/ServerPoiList.java:236-244 | a poi end tag routes currentPoi and clears it |
| XmlDatabase.PoiElementRead | Server/src/fr/umlv/ig/bipbip/server/data/ServerPoiList.java:139-165 | a whole written poi element whose coordinates and dates read back reads back as its POI, routed to its list; the same file's lines 179-247 take part too |
| XmlDatabase.ElementsRead | Server/src/fr/umlv/ig/bipbip/server/data/ServerPoiList.java:139-165 | written poi elements whose coordinates and dates read back are read, in document order, as their POIs routed to their lists; the same file's lines 179-247 take part too |
| XmlDatabase.ElementsAppend | Server/src/fr/umlv/ig/bipbip/server/data/ServerPoiList.java:128-129 | writing two lists is writing the first, then the second; the same file's lines 139-165 take part too |
| XmlDatabase.DocumentHead | Server/src/fr/umlv/ig/bipbip/server/data/ServerPoiList.java:119-122 | the points start tag of a saved document passes the version check; the same file's lines 182-190 take part too |
| XmlDatabase.DocumentTail | Server/src/fr/umlv/ig/bipbip/server/data/ServerPoiList.java:131-133 | after the last poi element the load ends with the lists built so far; the same file's lines 179-249 take part too |
| XmlDatabase.RecordsRouted | Server/src/fr/umlv/ig/bipbip/server/data/ServerPoiList.java:128-129 | the saved active POIs and removed POIs, read back, split into the same two lists again; the same file's lines 237-244 take part too |
| XmlDatabase.SaveLoadRoundTrip | Server/src/fr/umlv/ig/bipbip/server/data/ServerPoiList.java:115-250 | loading a saved document gives back its active and removed lists in order, with every field kept except that the long date format keeps only the day of each date; the formats need only read back the saved POIs' coordinates and parse their dates |
| SortedStores.Find | Server/src/fr/umlv/ig/bipbip/server/PoiList.java:34 | the position found is that of the first element the comparator puts level with the POI, and there is none exactly when no element is level with it; the same file's lines 110-125 take part too |
| SortedStores.Slot | Server/src/fr/umlv/ig/bipbip/server/PoiList.java:110-111 | a new element goes after every element it is not ordered before and before the first one ordered after it |
| SortedStores.Between | Server/src/fr/umlv/ig/bipbip/server/PoiList.java:137-141 | the range view never holds more than the set |
| SortedStores.OfKind | Server/src/fr/umlv/ig/bipbip/server/PoiList.java:160-168 | getPOIAt's loop keeps at most the POIs of the range |
| SortedStores.BetweenMembers | Server/src/fr/umlv/ig/bipbip/server/PoiList.java:137-141 | the range view holds exactly the elements not before the lower corner and strictly before the upper one |
| SortedStores.OfKindMembers | Server/src/fr/umlv/ig/bipbip/server/PoiList.java:163-167 | getPOIAt's loop keeps exactly the POIs of the requested type |
| SortedStores.InsertEffect | Server/src/fr/umlv/ig/bipbip/server/PoiList.java:110-111 | add leaves the set unchanged when it holds an element level with the POI and otherwise adds exactly that POI; afterwards an element level with it is present |
| SortedStores.DeleteEffect | Server/src/fr/umlv/ig/bipbip/server/PoiList.java:121-122 | remove takes out the first element level with the POI, and only that one, or nothing |
| SortedStores.DominanceFind | Server/src/fr/umlv/ig/bipbip/server/POIList.java:46 | under POIComparator an element is level with a POI exactly when it is that POI; the same file's lines 113-127 take part too |
| SortedStores.DominanceInsertDistinct | Server/src/fr/umlv/ig/bipbip/server/POIList.java:46 | under POIComparator add keeps every POI at most once and the added POI is present; the same file's lines 113-114 take part too |
| SortedStores.DominanceInsertDelete | Server/src/fr/umlv/ig/bipbip/server/POIList.java:113-127 | under POIComparator removing a POI just added gives the set back |
| SortedStores.DominanceSubSetDefined | Server/src/fr/umlv/ig/bipbip/server/POIList.java:140-144 | corners strictly north-east of each other never make subSet throw |
| SortedStores.DominanceLookup | Server/src/fr/umlv/ig/bipbip/server/POIList.java:159-172 | getPOIAt answers the POIs of the type that are north-east of or equal to the lower corner and neither north-east of nor equal to the upper corner |
| SortedStores.DominanceLookupFarNorth | Server/src/fr/umlv/ig/bipbip/server/POIList.java:159-172 | getPOIAt does not search a square: a POI of the type 100 units north (latitude x + 100) at the same longitude is found |
| SortedStores.DominanceUpdateKeepsSize | Server/src/fr/umlv/ig/bipbip/server/PoiList.java:196-202 | replacing a POI of the set by a new one keeps the number of POIs and the new one is present |
| SortedStores.SortedPoiSet.constructor | Server/src/fr/umlv/ig/bipbip/server/PoiList.java:34-35 | a new store has an empty set, no listener and the given comparator; the same file's lines 44-45 take part too |
| SortedStores.SortedPoiSet.Fire | Server/src/fr/umlv/ig/bipbip/server/PoiList.java:74-100 | one event, delivered to exactly the listeners registered at the time |
| SortedStores.SortedPoiSet.AddPOI | Server/src/fr/umlv/ig/bipbip/server/PoiList.java:110-114 | the set becomes what TreeSet.add makes of it and an addition is fired |
| SortedStores.SortedPoiSet.RemovePOI | Server/src/fr/umlv/ig/bipbip/server/PoiList.java:121-125 | the set becomes what TreeSet.remove makes of it and a removal is fired |
| SortedStores.SortedPoiSet.GetPointsBetween | Server/src/fr/umlv/ig/bipbip/server/PoiList.java:137-141 | the range view between two corners of the corner type, or the exception when the lower corner is ordered after the upper one |
| SortedStores.SortedPoiSet.GetPOIAt | Server/src/fr/umlv/ig/bipbip/server/PoiList.java:156-170 | the POIs of the requested type in the range between the corners PRECISION below and above the point |
| SortedStores.SortedPoiSet.GetSize | Server/src/fr/umlv/ig/bipbip/server/PoiList.java:184-186 | the number of POIs in the set |
| SortedStores.SortedPoiSet.UpdatePoi | Server/src/fr/umlv/ig/bipbip/server/PoiList.java:196-202 | the old POI is removed, the new one added, then a removal and an addition are fired |
| LegacyConsensus.FirstDated | Server/src/fr/umlv/ig/bipbip/server/ServerPoiList.java:70-78 | the position found holds the first POI with the report's date, and there is none exactly when no POI has that date |
| LegacyConsensus.FirstOfKind | Server/src/fr/umlv/ig/bipbip/server/ServerPoiList.java:116-123 | the position found holds the first POI of the report's type, and there is none exactly when no POI has that type |
| LegacyConsensus.ConsensusPoiSet.constructor | Server/src/fr/umlv/ig/bipbip/server/ServerPoiList.java:34 | a new store has an empty set and no listener |
| LegacyConsensus.ConsensusPoiSet.NotSeen | Server/src/fr/umlv/ig/bipbip/server/ServerPoiList.java:62-95 | the store becomes what the notSeen rule makes of it; when getPOIAt's range throws, nothing changes |
| LegacyConsensus.ConsensusPoiSet.AddPOI | Server/src/fr/umlv/ig/bipbip/server/ServerPoiList.java:107-128 | the store becomes what the addPOI rule makes of it; when the square's range throws, nothing changes |
| LegacyConsensus.LookupInSet | Server/src/fr/umlv/ig/bipbip/server/ServerPoiList.java:63 | a POI getPOIAt finds is a POI of the store, of the requested type |
| LegacyConsensus.NotSeenNoMatch | Server/src/fr/umlv/ig/bipbip/server/ServerPoiList.java:63-83 | with no POI of the report's type and date in the range, notSeen changes nothing and fires nothing |
| LegacyConsensus.NotSeenRefutesFirst | Server/src/fr/umlv/ig/bipbip/server/ServerPoiList.java:72-92 | below the threshold only the first POI found with the report's date changes, gaining one refutation, and one update is fired |
| LegacyConsensus.DominanceNotSeenRemoves | Server/src/fr/umlv/ig/bipbip/server/ServerPOIList.java:72-88 | at the threshold the first POI found with the report's date leaves the set, nothing else does, and one removal is fired |
| LegacyConsensus.AddWithoutMatch | Server/src/fr/umlv/ig/bipbip/server/ServerPoiList.java:108-112 | with no POI of the report's type in the square, the report is added as a plain addPOI would; the same file's lines 125-127 take part too |
| LegacyConsensus.ConfirmEffect | Server/src/fr/umlv/ig/bipbip/server/ServerPoiList.java:119-120 | a confirmation replaces the POI by its successor with one more confirmation and keeps the number of POIs |
| LegacyConsensus.AddConfirmsFirst | Server/src/fr/umlv/ig/bipbip/server/ServerPoiList.java:116-122 | only the first POI of the report's type in the square, a POI of the set, is confirmed, and nothing is added |
| LegacyConsensus.DominanceRulesDefined | Server/src/fr/umlv/ig/bipbip/server/ServerPOIList.java:63 | under POIComparator neither rule can throw, since both squares are well ordered; the same file's line 108 takes part too |
| LegacyConsensus.DominanceAddFresh | Server/src/fr/umlv/ig/bipbip/server/ServerPOIList.java:107-128 | a report whose type the set does not hold is added, growing the set by exactly that POI |
| LegacyConsensus.DominanceAddPresent | Server/src/fr/umlv/ig/bipbip/server/ServerPOIList.java:116-122 | a report that is the set's only POI of its type confirms itself |
| LegacyConsensus.DominanceResubmitConfirms | Server/src/fr/umlv/ig/bipbip/server/ServerPOIList.java:107-128 | a report of a new type sent twice is added once, then confirmed |
| CommandHandler.ToEvents | Server/src/fr/umlv/ig/bipbip/server/ClientCommandHandler.java:199-203 | one event per POI of the square, in set order |
| CommandHandler.ParseSighting | Server/src/fr/umlv/ig/bipbip/server/ClientCommandHandler.java:53-88 | a successful read of a SUBMIT or NOT_SEEN request consumes input; its failures carry the handler's IOException messages |
| CommandHandler.ParsePoint | Server/src/fr/umlv/ig/bipbip/server/ClientCommandHandler.java:184-192 | a successful read of GET_INFO's two doubles consumes input |
| CommandHandler.ReadSighting | Server/src/fr/umlv/ig/bipbip/server/ClientCommandHandler.java:53-88 | the Scanner calls yield the request the request grammar describes and leave the Scanner after its line, or fail with the same error |
| CommandHandler.HandleSubmit | Server/src/fr/umlv/ig/bipbip/server/ClientCommandHandler.java:52-99 | a valid request has addPOI applied to the POI it describes; on any failure the error is returned and the store is unchanged |
| CommandHandler.HandleNotSeen | Server/src/fr/umlv/ig/bipbip/server/ClientCommandHandler.java:114-169 | a valid request has notSeen applied to the first POI getPOIAt finds with the request's date, if any; on failure the store is unchanged |
| CommandHandler.RefuteSighting | Server/src/fr/umlv/ig/bipbip/server/ClientCommandHandler.java:152-166 | the search loop picks the first candidate dated as the request, and only that one is refuted |
| CommandHandler.HandleGetInfo | Server/src/fr/umlv/ig/bipbip/server/ClientCommandHandler.java:181-207 | the channel receives the INFOS reply for the POIs within SQUARE_AREA of the point; on failure nothing is sent |
| CommandHandler.DateAtEnd | Server/src/fr/umlv/ig/bipbip/server/ClientCommandHandler.java:75-83 | a date written alone at the end of the line after one space is the whole rest of that line once its leading spaces are dropped |
| CommandHandler.SightingWords | Server/src/fr/umlv/ig/bipbip/server/ClientCommandHandler.java:53-88 | the words of a request, spelt out, read back as the sighting they name |
| CommandHandler.ReportLineParses | Client/src/fr/umlv/ig/bipbip/ClientCommand.java:32-38 | a line ClientCommand writes reads back, after its command word, as the sighting it reports, when the formats read back that sighting's coordinates and date |
| CommandHandler.SubmitLineParses | Client/src/fr/umlv/ig/bipbip/ClientCommand.java:32-34 | a client SUBMIT line is read by the server as the reported sighting, when its coordinates and date read back |
| CommandHandler.NotSeenLineParses | Client/src/fr/umlv/ig/bipbip/ClientCommand.java:36-38 | a client NOT_SEEN line is read by the server as the reported sighting, when its coordinates and date read back |
| CommandHandler.GetInfoLineParses | Client/src/fr/umlv/ig/bipbip/ClientCommand.java:40-42 | a client GET_INFO line is read by the server as the point asked about, when its two coordinates read back |
| CommandHandler.GetInfoReplyReadsBack | Server/src/fr/umlv/ig/bipbip/server/ClientCommandHandler.java:196-206 | the server's INFOS reply, read by the client's INFOS handler, gives back the events of the square's POIs in set order and nothing after them, when their coordinates read back |
| Dispatcher.ServeBy | Server/src/fr/umlv/ig/bipbip/server/communication/ServerCommunication.java:107-138 | the session handles at most the lines sent; it ends on exhausted input exactly when every line was handled, and never on shutdown |
| Dispatcher.RunSpec | Server/src/fr/umlv/ig/bipbip/server/communication/ServerCommunication.java:76-100 | run serves at most one connection per accept attempt |
| Dispatcher.ServerCommunication.constructor | Server/src/fr/umlv/ig/bipbip/server/communication/ServerCommunication.java:51-54 | a new worker serves the given store, has no connection yet and no shutdown request |
| Dispatcher.ServerCommunication.Shutdown | Server/src/fr/umlv/ig/bipbip/server/communication/ServerCommunication.java:59-73 | the shutdown flag is set and the connection being served, if any, is closed without sending anything |
| Dispatcher.ServerCommunication.DispatchLine | Server/src/fr/umlv/ig/bipbip/server/communication/ServerCommunication.java:113-124 | a line is handled by the handler its first word names: the store and channel change as that handler's rule says, a blank line stops, an unknown word is refused |
| Dispatcher.ServerCommunication.DispatchCommand | Server/src/fr/umlv/ig/bipbip/server/communication/ServerCommunication.java:118-124 | the first word picks the handler by its name (valueOf): the store and channel change as that handler's rule says, its failure refuses the line with its message, and a word that names no handler refuses it with "Invalid command: " and the line |
| Dispatcher.ServerCommunication.ServeClient | Server/src/fr/umlv/ig/bipbip/server/communication/ServerCommunication.java:107-138 | the lines are handled in order until one ends the session; the store and the text sent are those of the session, and the connection is closed on every way out; with shutdown requested nothing is read |
| Dispatcher.ServerCommunication.Run | Server/src/fr/umlv/ig/bipbip/server/communication/ServerCommunication.java:76-100 | with no shutdown request, the store and the replies are those of serving each accepted connection in turn, a failed accept skipped and a closed listener ending the loop |
| Dispatcher.ServerCommunication.ServeConnection | Server/src/fr/umlv/ig/bipbip/server/communication/ServerCommunication.java:80 | an accepted connection becomes the current one, is served and is closed, and what was sent on it is the session's reply; the same file's lines 90-98 take part too |
| Dispatcher.ServerCommunication.ServeLines | Server/src/fr/umlv/ig/bipbip/server/communication/ServerCommunication.java:111-125 | the loop of serveClient computes the session over the remaining lines |
| Dispatcher.ServerCommunication.ServeLine | Server/src/fr/umlv/ig/bipbip/server/communication/ServerCommunication.java:112-124 | one turn of serveClient's loop keeps the session's progress equal to the whole session |
| Dispatcher.RunEnds | Server/src/fr/umlv/ig/bipbip/server/communication/ServerCommunication.java:82-83 | a closed listener, or no attempt left, ends run on the store and the replies so far |
| Dispatcher.RunStep | Server/src/fr/umlv/ig/bipbip/server/communication/ServerCommunication.java:90-98 | after a served connection run continues from the store that session left |
| Dispatcher.ServeEnds | Server/src/fr/umlv/ig/bipbip/server/communication/ServerCommunication.java:115-117 | a blank or refused line ends the session on the store and the replies so far; the same file's lines 122-123 take part too |
| Dispatcher.ServeStep | Server/src/fr/umlv/ig/bipbip/server/communication/ServerCommunication.java:111-125 | after a handled line the session continues from the store that line left |
| Dispatcher.LinesAfterEndIgnored | Server/src/fr/umlv/ig/bipbip/server/communication/ServerCommunication.java:115-117 | once a session has ended on a blank or refused line, the lines the client sent after it change nothing; the same file's lines 126-137 take part too |
| Dispatcher.ServeInOrder | Server/src/fr/umlv/ig/bipbip/server/communication/ServerCommunication.java:111-125 | a session over two runs of lines whose first run is fully handled is the session over the first, then the session over the second on the store the first left |
| Dispatcher.UnknownCommandRefused | Server/src/fr/umlv/ig/bipbip/server/communication/ServerCommunication.java:118-124 | a line whose first word names no handler ends the session at once with "Invalid command: " and the line, the store unchanged |
| Dispatcher.GetInfosRefused | Server/src/fr/umlv/ig/bipbip/server/BipbipServer.java:175-181 | the legacy server refuses the current client's GET_INFOS: its handler enum knows only GET_INFO, so the session ends at once with "Invalid command: " and the line, no reply and the store unchanged |
| Dispatcher.BlankLineEnds | Server/src/fr/umlv/ig/bipbip/server/communication/ServerCommunication.java:114-117 | a line with no word ends the session without touching the store or answering |
| Dispatcher.AllWhitespaceSkipped | Server/src/fr/umlv/ig/bipbip/server/communication/ServerCommunication.java:114-115 | a line of whitespace has no next token |
| Dispatcher.RunEndsAtClose | Server/src/fr/umlv/ig/bipbip/server/communication/ServerCommunication.java:82-83 | no connection attempted after the listening channel closes is served |
| CurrentProtocol.InfoLines | Server/src/fr/umlv/ig/bipbip/server/communication/ServerCommand.java:33-35 | one INFO line per POI, in list order; the same file's lines 38-40 take part too |
| CurrentProtocol.Reply | Server/src/fr/umlv/ig/bipbip/server/communication/ServerCommand.java:31-36 | the reply is the "INFOS <size>" header followed by one INFO line per POI, in list order |
| CurrentProtocol.SendInfos | Server/src/fr/umlv/ig/bipbip/server/communication/ServerCommand.java:31-36 | the channel receives exactly the reply's lines, each ended by a newline |
| CurrentProtocol.EmptyReply | Server/src/fr/umlv/ig/bipbip/server/communication/ServerCommand.java:31-36 | an empty list is answered by the single line "INFOS 0" |
| CurrentProtocol.RefutationsNotSent | Server/src/fr/umlv/ig/bipbip/server/communication/ServerCommand.java:38-40 | two POIs that differ only in their refutations get the same INFO line |
| CurrentProtocol.HeaderSplit | Client/src/fr/umlv/ig/bipbip/client/ServerCommunication.java:157-164 | a header that matches "INFOS \\d+" splits on its space into INFOS and its digits |
| CurrentProtocol.SubmitCarriesInfoFields | Client/src/fr/umlv/ig/bipbip/client/ServerCommunication.java:86 | a SUBMIT command carries exactly the fields of the INFO line the server sends for the same POI |
| CurrentProtocol.NotSeenDropsCount | Client/src/fr/umlv/ig/bipbip/client/ServerCommunication.java:111 | a NOT_SEEN command is the SUBMIT command under another word and without the confirmation count |
| CurrentProtocol.DecodeInfo | Client/src/fr/umlv/ig/bipbip/client/ServerCommunication.java:178-193 | a decoded INFO line matched the whole pattern, a coordinate's unescaped `.` matching any character but a line end, and gives a POI with no refutation; a line that does not match fails with "Invalide answer" and the line |
| CurrentProtocol.SpacedDotMisplacesDate | Client/src/fr/umlv/ig/bipbip/client/ServerCommunication.java:178-192 | a line whose coordinate `.` matched a space passes the pattern, but split(" ") gives more than six fields and split[4], converted as the date, never has the date's shape; a date format that refuses it ends the read with "Invalid date format: " and that field |
| CurrentProtocol.DecodeInfosCount | Client/src/fr/umlv/ig/bipbip/client/ServerCommunication.java:171-194 | a successful read of n INFO lines yields exactly n POIs |
| CurrentProtocol.Decoded | Client/src/fr/umlv/ig/bipbip/client/ServerCommunication.java:196 | the read succeeds exactly when the loop does, with its POIs or its error |
| CurrentProtocol.InfoMissing | Client/src/fr/umlv/ig/bipbip/client/ServerCommunication.java:172-175 | with a line still owed and none left, the read fails with "Missing INFO answer" |
| CurrentProtocol.InfoRejected | Client/src/fr/umlv/ig/bipbip/client/ServerCommunication.java:178-193 | a line that does not decode ends the read with that line's error |
| CurrentProtocol.InfoKept | Client/src/fr/umlv/ig/bipbip/client/ServerCommunication.java:176-186 | a line that decodes adds its POI after those already read, and reading goes on after it |
| CurrentProtocol.ReadReply | Client/src/fr/umlv/ig/bipbip/client/ServerCommunication.java:150-197 | getPois' reading half returns what decoding the server's text gives: the header checks, then the n INFO lines |
| CurrentProtocol.ReadInfos | Client/src/fr/umlv/ig/bipbip/client/ServerCommunication.java:170-196 | the loop's result is the decoding of the n INFO lines from the Scanner's input |
| CurrentProtocol.Received | Client/src/fr/umlv/ig/bipbip/client/ServerCommunication.java:186 | the client's copy of each POI sent is that POI with zero refutations, in order |
| CurrentProtocol.InfoLineRead | Server/src/fr/umlv/ig/bipbip/server/communication/ServerCommand.java:38-40 | the INFO line of a representable POI is one line, splits back into its six fields and matches the client's pattern |
| CurrentProtocol.InfoRoundTrip | Client/src/fr/umlv/ig/bipbip/client/ServerCommunication.java:178-186 | the client rebuilds from an INFO line the POI it was written for, without its refutations, when the pattern accepts the line and its coordinates and date read back |
| CurrentProtocol.LinesRoundTrip | Client/src/fr/umlv/ig/bipbip/client/ServerCommunication.java:171-194 | lines that each decode, sent in order and followed by anything, yield their values in order and the read continues after them |
| CurrentProtocol.InfoLinesRoundTrip | Client/src/fr/umlv/ig/bipbip/client/ServerCommunication.java:171-194 | the INFO lines of a list of POIs that each read back, followed by anything, yield its POIs first |
| CurrentProtocol.InfoLinesDecode | Server/src/fr/umlv/ig/bipbip/server/communication/ServerCommand.java:38-40 | every INFO line of a list of POIs that each read back is one line and decodes to its POI without refutations |
| CurrentProtocol.HeaderShape | Server/src/fr/umlv/ig/bipbip/server/communication/ServerCommand.java:32 | the header for n POIs is one line that matches "INFOS \\d+", with n's digits after the space |
| CurrentProtocol.HeaderRead | Client/src/fr/umlv/ig/bipbip/client/ServerCommunication.java:151-168 | the header for n POIs, once read, leaves the decoder on the n INFO lines after it |
| CurrentProtocol.ReplyRoundTrip | Client/src/fr/umlv/ig/bipbip/client/ServerCommunication.java:150-197 | getPois on the reply sendInfos writes yields the POIs in list order without their refutations, whatever follows the reply, when each POI's coordinates and date read back |
| CurrentProtocol.TruncatedReply | Client/src/fr/umlv/ig/bipbip/client/ServerCommunication.java:172-175 | a reply cut short after some of its INFO lines fails with "Missing INFO answer", when the lines sent read back |
| CurrentProtocol.ServerCommunication.constructor | Client/src/fr/umlv/ig/bipbip/client/ServerCommunication.java:63-67 | a new client has no channel |
| CurrentProtocol.ServerCommunication.Connect | Client/src/fr/umlv/ig/bipbip/client/ServerCommunication.java:199-206 | a reachable server gives a fresh open channel; otherwise the error "Unable to connect to the server" and the old channel stays |
| CurrentProtocol.ServerCommunication.Send | Client/src/fr/umlv/ig/bipbip/client/ServerCommunication.java:82-92 | connect unless connected, then the command is written; a failed write closes the channel and reports the command's failure message |
| CurrentProtocol.ServerCommunication.Submit | Client/src/fr/umlv/ig/bipbip/client/ServerCommunication.java:79-93 | the SUBMIT command for the POI is written on a connected channel, or the connect or write error is reported |
| CurrentProtocol.ServerCommunication.NotSeen | Client/src/fr/umlv/ig/bipbip/client/ServerCommunication.java:104-118 | the NOT_SEEN command for the POI is written on a connected channel, or the connect or write error is reported |
| CurrentProtocol.ServerCommunication.GetPois | Client/src/fr/umlv/ig/bipbip/client/ServerCommunication.java:135-197 | GET_INFOS goes out, then the reply is decoded; every failure after the write closes the channel, and a successful read leaves it open |
| CurrentProtocol.ServerCommunication.Close | Client/src/fr/umlv/ig/bipbip/client/ServerCommunication.java:208-214 | the channel is closed; with no channel ever opened the error is "Channel already closed" |
| LegacyProtocol.NameIsToken | BipBipShared/src/fr/umlv/ig/bipbip/EventType.java:28-32 | every event type's name is a single token |
| LegacyProtocol.ReportLinesDiffer | Client/src/fr/umlv/ig/bipbip/ClientCommand.java:32-38 | SUBMIT and NOT_SEEN lines differ only in their command word |
| LegacyProtocol.ReportLineWords | Client/src/fr/umlv/ig/bipbip/ClientCommand.java:32-38 | a report line is the command word, then the type, x, y and the date, one space before each |
| LegacyProtocol.GetInfoLineWords | Client/src/fr/umlv/ig/bipbip/ClientCommand.java:40-42 | GET_INFO's line is the command word, then x and y, one space before each |
| LegacyProtocol.GetInfoFields | Client/src/fr/umlv/ig/bipbip/ClientCommand.java:40-42 | GET_INFO's line splits back on its spaces into the command word and the two numbers |
| LegacyProtocol.OneLineSent | Client/src/fr/umlv/ig/bipbip/ClientCommand.java:32-42 | a line written without a newline is received as exactly that one line |
| LegacyProtocol.InfoLines | Server/src/fr/umlv/ig/bipbip/server/ServerCommand.java:34-36 | one INFO line per event, in list order; the same file's lines 39-41 take part too |
| LegacyProtocol.Reply | Server/src/fr/umlv/ig/bipbip/server/ServerCommand.java:32-37 | the reply is the "INFOS <size>" header followed by one INFO line per event |
| LegacyProtocol.SendInfos | Server/src/fr/umlv/ig/bipbip/server/ServerCommand.java:32-37 | the channel receives exactly the reply's lines, each ended by a newline |
| LegacyProtocol.InfoLineFields | Server/src/fr/umlv/ig/bipbip/server/ServerCommand.java:39-41 | each INFO line splits into INFO, the type's name, x and y |
| LegacyProtocol.EmptyReply | Server/src/fr/umlv/ig/bipbip/server/ServerCommand.java:32-37 | an empty list is answered by the single line "INFOS 0" |
| LegacyProtocol.ReadInfo | Client/src/fr/umlv/ig/bipbip/ServerCommandHandler.java:83-108 | a successful INFO read consumes input; its failures carry the handler's IOException messages |
| LegacyProtocol.ReadRecord | Client/src/fr/umlv/ig/bipbip/ServerCommandHandler.java:63-66 | a successful record read, the INFO token then INFO.handle, consumes input |
| LegacyProtocol.ReadRecords | Client/src/fr/umlv/ig/bipbip/ServerCommandHandler.java:62-67 | a successful read of count records yields exactly count events |
| LegacyProtocol.Prepend | Client/src/fr/umlv/ig/bipbip/ServerCommandHandler.java:61-68 | events read earlier stay in front of what later reads yield, and failures pass through |
| LegacyProtocol.RecordsStep | Client/src/fr/umlv/ig/bipbip/ServerCommandHandler.java:62-67 | reading count records is reading the first, then the others from where it ended; its failure is theirs |
| LegacyProtocol.RecordRead | Client/src/fr/umlv/ig/bipbip/ServerCommandHandler.java:62-67 | a pass that reads a record keeps the list and what is left to read in step with the whole read |
| LegacyProtocol.RecordFails | Client/src/fr/umlv/ig/bipbip/ServerCommandHandler.java:63-66 | a pass that fails makes the whole read fail with its error |
| LegacyProtocol.PrependTwice | Client/src/fr/umlv/ig/bipbip/ServerCommandHandler.java:61-68 | prepending nothing changes nothing, and prepending twice is prepending both at once |
| LegacyProtocol.ReadInfos | Client/src/fr/umlv/ig/bipbip/ServerCommandHandler.java:49-69 | a successful INFOS read consumes input: the count line, then that many records, none when the count is negative |
| LegacyProtocol.HandleInfo | Client/src/fr/umlv/ig/bipbip/ServerCommandHandler.java:83-108 | the Scanner calls read what ReadInfo describes and leave the Scanner after it, or fail with the same error |
| LegacyProtocol.HandleRecord | Client/src/fr/umlv/ig/bipbip/ServerCommandHandler.java:63-66 | the Scanner calls read what ReadRecord describes, or fail with the same error |
| LegacyProtocol.HandleRecords | Client/src/fr/umlv/ig/bipbip/ServerCommandHandler.java:61-68 | the loop reads what ReadRecords describes for n records, none when n is negative |
| LegacyProtocol.HandleInfos | Client/src/fr/umlv/ig/bipbip/ServerCommandHandler.java:49-69 | INFOS.handle reads what ReadInfos describes and leaves the Scanner after it, or fails with the same error |
| LegacyProtocol.ReadInfoWords | Client/src/fr/umlv/ig/bipbip/ServerCommandHandler.java:83-108 | a record's words, ended by a newline, read back as its event, and reading goes on after the newline |
| LegacyProtocol.InfoLineHasNoNewline | Server/src/fr/umlv/ig/bipbip/server/ServerCommand.java:39-41 | an INFO line holds no line break |
| LegacyProtocol.ReadRecordsOf | Client/src/fr/umlv/ig/bipbip/ServerCommandHandler.java:62-67 | the INFO lines of a list of events whose coordinates read back, sent one after the other, read back as that list with nothing left over |
| LegacyProtocol.CountReadsBack | Client/src/fr/umlv/ig/bipbip/ServerCommandHandler.java:54-57 | the count the header carries is one token, and Integer.parseInt reads it back |
| LegacyProtocol.ReplyRoundTrip | Client/src/fr/umlv/ig/bipbip/ServerCommandHandler.java:49-69 | what sendInfos writes is read back by the client: the first token is INFOS, and INFOS.handle yields exactly the events sent, in order, consuming the whole reply, when each event's coordinates read back |
| ClientModels.RemoveUndoesAdd | Client/src/fr/umlv/ig/bipbip/client/MapPoiModel.java:88-105 | removePoi after addPoi gives the same POIs back, and the very same list when the POI was new |
| ClientModels.MapPoiModel.constructor | Client/src/fr/umlv/ig/bipbip/client/MapPoiModel.java:32-33 | a new model holds no POI and no listener and has fired nothing |
| ClientModels.MapPoiModel.GetAllPoi | Client/src/fr/umlv/ig/bipbip/client/MapPoiModel.java:36-38 | the model's own POIs, in order; the legacy Client/src/fr/umlv/ig/bipbip/poi/MapPOIModel.java:42-44 hands out its own list in the same way |
| ClientModels.MapPoiModel.AddPoi | Client/src/fr/umlv/ig/bipbip/client/MapPoiModel.java:88-93 | a null POI is rejected and nothing changes; otherwise it is appended, even when an equal one is held, and an added event goes to the listeners registered now; the legacy Client/src/fr/umlv/ig/bipbip/poi/MapPOIModel.java:94-99 appends and fires in the same way |
| ClientModels.MapPoiModel.RemovePoi | Client/src/fr/umlv/ig/bipbip/client/MapPoiModel.java:100-105 | a null POI is rejected; otherwise the first equal POI goes and a removed event goes out whether or not one was held; the legacy Client/src/fr/umlv/ig/bipbip/poi/MapPOIModel.java:106-111 removes and fires in the same way |
| ClientModels.Execute | Client/src/fr/umlv/ig/bipbip/client/model/ServerPoiModel.java:196-305 | one task run: only an UpdateTask touches the POIs; a failed fetch only tells the communication listeners; an unresolved address escapes SubmitTask and NotSeenTask and then changes nothing |
| ClientModels.ReplaySnoc | Client/src/fr/umlv/ig/bipbip/client/model/ServerPoiModel.java:186-194 | a task queued last runs after all the others |
| ClientModels.UpdateTaskSyncs | Client/src/fr/umlv/ig/bipbip/client/model/ServerPoiModel.java:261-293 | a successful UpdateTask leaves exactly the fetched POIs, fires only removed and added events, never an updated one, and tells the communication listeners once |
| ClientModels.WithCounters | Client/src/fr/umlv/ig/bipbip/client/model/ServerPoiModel.java:132-136 | updatePoi keeps the POI's place, type and date and takes the new counters |
| ClientModels.UpdateKeepsPlaces | Client/src/fr/umlv/ig/bipbip/client/model/ServerPoiModel.java:132-136 | updatePoi keeps every POI where it was with its place, type and date; only the first equal POI's counters change |
| ClientModels.ServerPoiModel.constructor | Client/src/fr/umlv/ig/bipbip/client/model/ServerPoiModel.java:36-45 | a new model holds no POI, no listener and no task |
| ClientModels.ServerPoiModel.AddPoi | Client/src/fr/umlv/ig/bipbip/client/model/ServerPoiModel.java:125-130 | a null POI is rejected; otherwise it is appended without any check and an added event goes out |
| ClientModels.ServerPoiModel.RemovePoi | Client/src/fr/umlv/ig/bipbip/client/model/ServerPoiModel.java:143-148 | a null POI is rejected; otherwise the first equal POI goes and a removed event goes out in any case |
| ClientModels.ServerPoiModel.UpdatePoi | Client/src/fr/umlv/ig/bipbip/client/model/ServerPoiModel.java:132-136 | the POI takes the counters of the new one where it stands, no POI is added or removed, and an updated event goes out |
| ClientModels.ServerPoiModel.Update | Client/src/fr/umlv/ig/bipbip/client/model/ServerPoiModel.java:168-172 | one UpdateTask joins the end of the queue |
| ClientModels.ServerPoiModel.Submit | Client/src/fr/umlv/ig/bipbip/client/model/ServerPoiModel.java:174-178 | a null POI is rejected; otherwise one SubmitTask joins the end of the queue |
| ClientModels.ServerPoiModel.NotSeen | Client/src/fr/umlv/ig/bipbip/client/model/ServerPoiModel.java:180-184 | a null POI is rejected; otherwise one NotSeenTask joins the end of the queue |
| ClientModels.ServerPoiModel.RemoveStale | Client/src/fr/umlv/ig/bipbip/client/model/ServerPoiModel.java:265-270 | the local POIs the reply lacks are removed, the others kept in order, with one removed event each in local order |
| ClientModels.ServerPoiModel.AddMissing | Client/src/fr/umlv/ig/bipbip/client/model/ServerPoiModel.java:272-288 | each fetched POI the list lacks is appended in reply order, with one added event each |
| ClientModels.ServerPoiModel.Contains | Client/src/fr/umlv/ig/bipbip/client/model/ServerPoiModel.java:274-284 | the inner search finds a POI exactly when an equal one is held |
| ClientModels.ServerPoiModel.Sync | Client/src/fr/umlv/ig/bipbip/client/model/ServerPoiModel.java:263-293 | the local POIs become those kept in local order followed by the new ones, with the removals then the additions fired |
| ClientModels.ServerPoiModel.RunTask | Client/src/fr/umlv/ig/bipbip/client/model/ServerPoiModel.java:196-305 | one task's run changes the model as Execute says and reports whether its exception escapes |
| ClientModels.ServerPoiModel.Run | Client/src/fr/umlv/ig/bipbip/client/model/ServerPoiModel.java:186-194 | the worker takes tasks from the head of the queue and runs them in order, stopping when the queue or the answers run out or right after a task whose exception escapes |
| ModelSync.Deliver | Client/src/fr/umlv/ig/bipbip/client/MapPoiModelUpdater.java:86-88 | each event goes, in order, to the listeners given |
| ModelSync.Removals | Client/src/fr/umlv/ig/bipbip/client/MapPoiModelUpdater.java:75-79 | one removed event per POI, in order |
| ModelSync.Additions | Client/src/fr/umlv/ig/bipbip/client/MapPoiModelUpdater.java:80-84 | one added event per POI, in order |
| ModelSync.DeliverAppend | Client/src/fr/umlv/ig/bipbip/client/MapPoiModelUpdater.java:71-96 | delivering two runs of events is delivering the first, then the second |
| ModelSync.Dropped | Client/src/fr/umlv/ig/bipbip/client/MapPoiModelUpdater.java:75-79 | what a sync removes are POIs of the local list that the reply lacks |
| ModelSync.KeptAndDropped | Client/src/fr/umlv/ig/bipbip/client/MapPoiModelUpdater.java:75-79 | every local POI is either kept or dropped, never both and never neither |
| ModelSync.DroppedAppend | Client/src/fr/umlv/ig/bipbip/client/MapPoiModelUpdater.java:75-79 | the POIs dropped from two runs of a list are those dropped from each, in order |
| ModelSync.RemoveFirstAfter | Client/src/fr/umlv/ig/bipbip/client/MapPoiModelUpdater.java:77 | removing the first copy of a POI that the earlier part lacks removes exactly that copy |
| ModelSync.RemovalPass | Client/src/fr/umlv/ig/bipbip/client/MapPoiModelUpdater.java:75-79 | one pass of the removal loop over a snapshot moves one POI from the unvisited part to the kept part, or removes it when the reply lacks it |
| ModelSync.RemovalNoticesPass | Client/src/fr/umlv/ig/bipbip/client/MapPoiModelUpdater.java:75-79 | one pass of the removal loop adds a removed event exactly when it removes a POI |
| ModelSync.AdditionPass | Client/src/fr/umlv/ig/bipbip/client/MapPoiModelUpdater.java:80-84 | one pass of the add loop leaves the same final list to reach |
| ModelSync.AdditionNoticesPass | Client/src/fr/umlv/ig/bipbip/client/MapPoiModelUpdater.java:80-84 | an appended POI's added event follows those of the POIs appended before it |
| ModelSync.AppendAbsentSnoc | Client/src/fr/umlv/ig/bipbip/client/MapPoiModelUpdater.java:80-84 | one more POI to add is appended exactly when the list so far lacks it |
| ModelSync.AppendAbsentExtra | Client/src/fr/umlv/ig/bipbip/client/MapPoiModelUpdater.java:80-84 | what the add loop appends are POIs of the reply that the list lacked |
| ModelSync.AppendAbsentPresent | Client/src/fr/umlv/ig/bipbip/client/MapPoiModelUpdater.java:80-84 | when every POI of the reply is already held, the add loop adds nothing |
| ModelSync.AppendAbsentSameAdds | Client/src/fr/umlv/ig/bipbip/MapPOIModelUpdater.java:77-81 | what the add loop appends depends only on which POIs of the reply the list already holds |
| ModelSync.KeepInAll | Client/src/fr/umlv/ig/bipbip/client/MapPoiModelUpdater.java:75-79 | when the reply holds every local POI, the removal loop removes nothing |
| ModelSync.KeepInKeepsDistinct | Client/src/fr/umlv/ig/bipbip/client/MapPoiModelUpdater.java:75-79 | the removal loop keeps a list without duplicates free of them |
| ModelSync.RemoveThenAddMembers | Client/src/fr/umlv/ig/bipbip/client/MapPoiModelUpdater.java:75-84 | after a sync the local list holds exactly the POIs the server sent |
| ModelSync.RemoveThenAddKeepsOrder | Client/src/fr/umlv/ig/bipbip/client/MapPoiModelUpdater.java:75-84 | a sync keeps the local POIs the reply still has, in local order, before any new one |
| ModelSync.RemoveThenAddDistinct | Client/src/fr/umlv/ig/bipbip/client/MapPoiModelUpdater.java:75-84 | a sync neither duplicates a POI nor lets one repeated in the reply in twice |
| ModelSync.SyncIdempotent | Client/src/fr/umlv/ig/bipbip/client/model/ServerPoiModel.java:265-288 | syncing again with the same reply changes nothing and fires nothing |
| ModelSync.EitherOrder | Client/src/fr/umlv/ig/bipbip/MapPOIModelUpdater.java:77-86 | adding first and removing afterwards, done correctly, leaves the same list as removing first |
| ModelSync.AddThenRemoveMembers | Client/src/fr/umlv/ig/bipbip/MapPOIModelUpdater.java:77-86 | the intended legacy sync leaves exactly the fetched POIs |
| ModelSync.SweepAsWritten | Client/src/fr/umlv/ig/bipbip/MapPOIModelUpdater.java:82-86 | the for-each loop over the list it changes removes at most one POI, and without a removal it ends quietly having changed nothing |
| ModelSync.SweepSkipsKept | Client/src/fr/umlv/ig/bipbip/MapPOIModelUpdater.java:82-83 | until its first removal the loop only moves on |
| ModelSync.SweepFirstDrop | Client/src/fr/umlv/ig/bipbip/MapPOIModelUpdater.java:82-86 | the loop removes only the first POI the reply lacks, then ends quietly if that POI was next to last and throws ConcurrentModificationException otherwise |
| ModelSync.SweepKeepsAll | Client/src/fr/umlv/ig/bipbip/MapPOIModelUpdater.java:82-86 | when the reply holds every POI the loop removes nothing and ends quietly |
| ModelSync.SweepLeavesStale | Client/src/fr/umlv/ig/bipbip/MapPOIModelUpdater.java:82-86 | with two POIs and an empty reply the loop removes the first and stops, leaving a POI the server no longer has |
| ModelSync.SweepThrows | Client/src/fr/umlv/ig/bipbip/MapPOIModelUpdater.java:82-86 | with three POIs and an empty reply the first removal makes the next step throw |
| ModelUpdaters.RemoveAbsent | Client/src/fr/umlv/ig/bipbip/client/MapPoiModelUpdater.java:74-79 | the model keeps the POIs the reply holds, in order, with one removed event per POI dropped |
| ModelUpdaters.AddAbsent | Client/src/fr/umlv/ig/bipbip/client/MapPoiModelUpdater.java:80-84 | each POI of the reply the live list lacks is appended in reply order, with one added event each |
| ModelUpdaters.MapPoiModelUpdater.constructor | Client/src/fr/umlv/ig/bipbip/client/MapPoiModelUpdater.java:48-57 | a new updater works on the given model, with no listener and no event |
| ModelUpdaters.MapPoiModelUpdater.Create | Client/src/fr/umlv/ig/bipbip/client/MapPoiModelUpdater.java:49-51 | an updater is made exactly when a model is given |
| ModelUpdaters.MapPoiModelUpdater.Update | Client/src/fr/umlv/ig/bipbip/client/MapPoiModelUpdater.java:71-96 | a failed fetch leaves the model alone, tells the listeners once and is rethrown as "Connection problem: Unable to update POIs"; a successful one makes the model the sync of its POIs with the reply, fires the sync's events and tells the listeners once |
| ModelUpdaters.InfosReply | Client/src/fr/umlv/ig/bipbip/MapPOIModelUpdater.java:72-76 | a reply that is read starts with the token INFOS and is consumed; with no token at all the error is "Server did not respond to the GET_INFO query" |
| ModelUpdaters.InfosReplyRoundTrip | Client/src/fr/umlv/ig/bipbip/MapPOIModelUpdater.java:72-76 | the reply the legacy server writes for some events is read back by the legacy updater as exactly those events, when their coordinates read back |
| ModelUpdaters.AddThenRemoveEvents | Client/src/fr/umlv/ig/bipbip/MapPOIModelUpdater.java:77-86 | a legacy sync fires one event per POI it adds or removes |
| ModelUpdaters.LegacySyncSettles | Client/src/fr/umlv/ig/bipbip/MapPOIModelUpdater.java:77-86 | the legacy sync, done correctly, run again on the same reply, changes nothing and fires nothing |
| ModelUpdaters.ReceiveInfos | Client/src/fr/umlv/ig/bipbip/MapPOIModelUpdater.java:67 | the scanner reads what InfosReply describes, or fails with its error; the same file's lines 72-76 take part too |
| ModelUpdaters.Resync | Client/src/fr/umlv/ig/bipbip/MapPOIModelUpdater.java:77-86 | the model becomes the fetched POIs added, then the POIs the reply lacks removed, with those events in that order |
| ModelUpdaters.LegacyMapPoiModelUpdater.constructor | Client/src/fr/umlv/ig/bipbip/MapPOIModelUpdater.java:52-58 | a new updater works on the given model with the given keep-alive choice and no channel |
| ModelUpdaters.LegacyMapPoiModelUpdater.Release | Client/src/fr/umlv/ig/bipbip/MapPOIModelUpdater.java:87-95 | the channel is closed unless it is kept alive |
| ModelUpdaters.LegacyMapPoiModelUpdater.Update | Client/src/fr/umlv/ig/bipbip/MapPOIModelUpdater.java:60-96 | a connected channel is reused, otherwise a new one is opened; GET_INFO goes out; a reply that reads leaves the model as the corrected sync `Resync` of the Findings table makes it (fetched POIs added, then the POIs the reply lacks removed), not as the Java removal loop leaves it, which RemoveAbsentAsWritten models; every failure leaves the model alone and is reported; the channel stays open only when kept alive |
| ModelUpdaters.LegacyMapPoiModelUpdater.RemoveAbsentAsWritten | Client/src/fr/umlv/ig/bipbip/MapPOIModelUpdater.java:82-86 | the loop as written ends as SweepAsWritten says: at most one POI removed, with its removed event, then ConcurrentModificationException unless the cursor happens to reach the end |
| ServerStore.PoiList.SetInPlace | Server/src/fr/umlv/ig/bipbip/server/data/ServerPoiList.java:74-75 | a setter called on an active POI changes, where it stands and with nothing else, the first active POI equal to it, which is that POI unless an equal one sits earlier |
| SortedStores.SortedPoiSet.SetInPlace | Server/src/fr/umlv/ig/bipbip/server/ServerPoiList.java:90 | a setter called on a POI of the set changes, where it stands and without re-sorting, the first element equal to it, which is that POI unless an equal one sits earlier; the same file's line 119 takes part too |
| Text.Scanner.constructor | Server/src/fr/umlv/ig/bipbip/server/communication/ServerCommunication.java:114 | a Scanner over a line starts with the whole line unread |
| NetUtils.EncodeCharDecodes | BipBipShared/src/fr/umlv/ig/bipbip/NetUtils.java:21 | the bytes of one encoded character, whatever follows them, are one well-formed UTF-8 sequence that decodes to that character |

## Left out

- Floating point: `getDistanceInMeter`'s trigonometry is a distance function passed in, and `Double.toString` and `Double.parseDouble` are a codec. Its round trip is assumed per value (`Text.ReadsBack`) for the coordinates a lemma is about, and the words it writes are assumed to hold no whitespace (`Text.ShowsTokens`). The coordinate arithmetic of the squares (`x - PRECISION`) is exact arithmetic on reals.
- Dates: `java.util.Date` is an integer instant. `SimpleDateFormat`, `DateFormat.LONG` and the legacy protocol's date format are codecs. The legacy `NetUtil.getDateformat()` is not part of this model; its shared counterpart `NetUtils.getDateformat()` is the FULL US-locale date and time. The LONG format keeping only the day is a function passed in. The FULL format prints no milliseconds, so the legacy command lemmas assume the round trip only for the dates they send.
- The clock: `new Date()` in removePoi and in the search corners is a `now` parameter.
- The TreeSet's red-black tree: the sorted set is a list in the comparator's order, searched front to back. With the comparators here, which are not total orders, the real tree can find or miss different elements along its search path.
- Concurrency: the Timer, the worker thread, `Thread.interrupted`, `Thread.sleep`, the synchronized blocks, and two threads sharing one store are not modelled. Every operation runs alone, and the run loops take their inputs as sequences.
- The legacy `MapPOIModelUpdater.run()` exits the JVM with `System.exit(1)` on an IOException. This is not modelled. `LegacyMapPoiModelUpdater.Update` returns the error instead.
- Sockets and I/O:
  - Opening, connecting and writing come in as booleans or error messages.
  - A channel is a record of the text written and whether it is open.
  - Partial writes, `setSoTimeout`, the `Scanner`'s charset and locale, and read-ahead across calls are left out.
  - Line ends other than `'\n'` are left out.
  - A write failure in the legacy commands is left out. Their `writeLine` always succeeds.
- The communication `ClientCommandHandler` that `server/communication/ServerCommunication` calls is not part of this model. The dispatcher hands each line to the legacy server `ClientCommandHandler` over the legacy voting store.
- `Event.java` (the legacy client's POI) is not part of this model. `LegacyProtocol.Event` is a value with structural equality, so `contains` and `remove` compare the type and both coordinates.
- `ServerConnection`, which the current `MapPoiModelUpdater` fetches from, is not part of this model. The fetch result is a parameter of `ModelUpdaters.MapPoiModelUpdater.Update`.
- The `(ArrayList<Poi>)` casts on the fetched collections are assumed to succeed. A `ClassCastException` is not modelled.
- Null checks: only those whose outcome the model can express are kept (null POIs, null listeners, the null model of `MapPoiModelUpdater`). The `requireNonNull` on the map viewer, the server address and the coordinate is left out. So is the `NullPointerException` of a legacy updater built with a null model or channel.
- ClientModels.MapPoiModel.GetAllPoi: the live collection the Java method hands out is modelled as the model's list at the time of the call. The current updater's removal loop runs on that list as it was. This matches what a weakly consistent iterator over a concurrent deque sees when the only changes are the loop's own removals.
- ClientModels.ServerPoiModel.UpdatePoi: the setters act on the POI object the list holds. The model replaces the first POI equal to it, which is the same one unless an equal POI sits earlier in the list.
- Comparators.Dominance: POIComparator's `o1.equals(o2)` is object identity for the legacy POIs, since `SimplePOI` and its subclasses do not override `equals`. The model compares values, so two distinct legacy POIs with the same fields compare 0 here and -1 in Java. The members below inherit this; `LegacyConsensus`'s addPOI confirms a POI of the same type in the square instead of adding, so the command path does not add such a twin.
- Comparators.DominanceZeroIffEqual: the equality it states is value equality, not the object identity the legacy POIs have in Java.
- SortedStores.DominanceFind: "level with the POI" is value equality; a distinct legacy POI with the same fields is level with it here and not in Java.
- SortedStores.DominanceInsertDistinct: a TreeSet under POIComparator would take a second, distinct legacy POI with the same fields; the model keeps one.
- ServerStore.PoiList.SetInPlace: the setters act on the POI object the list holds. The model changes the first active POI equal to it, which is the same one unless an equal POI sits earlier, as a loaded save file can produce.
- SortedStores.SortedPoiSet.SetInPlace: as for ServerStore.PoiList.SetInPlace, the first element equal to the POI is the one changed.
- The answers the worker's tasks get from the server (`Answer`) are parameters. `ServerCommunication`'s calls inside the tasks are not chained to them.
- GUI code, logging, `toString`, `getImageName`'s images and the listeners' own reactions are out of scope. The listeners are a log of the events delivered to them.

## Findings

| source | as written | input that shows it | evidently intended | confidence | as-written member | corrected member |
|---|---|---|---|---|---|---|
| Client/src/fr/umlv/ig/bipbip/MapPOIModelUpdater.java:82-86 | the removal loop is a for-each over the model's own `ArrayList`, and `removePOI` removes from that same list inside the loop, so the fail-fast iterator ends the loop after the first removal | a model holding [a, b] and a reply with no POI: a is removed, the cursor equals the new size, the loop stops and b stays on the map; with [a, b, c] the next step throws ConcurrentModificationException | remove every POI the reply no longer holds | not executed | ModelSync.SweepLeavesStale | ModelUpdaters.Resync |
