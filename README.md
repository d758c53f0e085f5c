# BSBackupSystem ingestion pipeline, modelled in Dafny

BSBackupSystem keeps a backup of online Diplomacy games. A scheduled job reads a
game's history page and each turn page. It pulls three script lines out of every
turn page: the turn state, the units and the orders. It decodes the units and
orders and translates them into model orders. It then upserts one move-set per
turn into the game's history. The upsert merges a page seen again into the turn
already stored, and keeps one chain of turns linked by previous-turn ids.

The model covers:

- the FNV-1/FNV-1a hashes of `Common/FnvHashing.cs`, as loops proved against a fold;
- the null-if-blank string helpers and the order renderings of `UnitOrder.cs`;
- the extractor: href filtering, the stable turn sort, the marker-line scan, the quote slicing, and the retry loop as a `while` loop in a class;
- the decoder: the unit map flattening, the order list converter as a loop, and the unit back-fill;
- the translator: nine order variants, year and season from the path, and the move-set built from the records;
- the `ReadAndPersistGame` turn loop, which threads the previous-turn id from turn to turn;
- the data manager, as a class over a sequence of games. It covers URL sanitisation and foreign-id extraction with hand-written recognisers for the two regular expressions, registration, the active-set choice, the merge test, insert and update, and delete;
- the older `DiploData.cs` data manager, in a module of its own;
- the recovery-code and token part of `AppUserStore.cs`, and the access-failure counter with `int` wrap-around.

Modules and files:

- `wrappers.dfy`: `Option` and `Result`.
- `fnv.dfy`: `Fnv`.
- `text.dfy`: `Text`, the .NET string operations used.
- `diplo.dfy`: `Diplo`, the persisted entities and renderings.
- `urls.dfy`: `Urls`, the game-URL and foreign-id patterns. `urlexample.dfy` holds a worked example.
- `yearseason.dfy`: `YearSeasons`.
- `extractor.dfy`: `Extractor`.
- `decoder.dfy`: `Decoder`.
- `translator.dfy`: `Translator`.
- `datamanager.dfy`: `DataManager`.
- `legacydata.dfy`: `LegacyData`.
- `gamereader.dfy`: `GameReader`.
- `userstore.dfy`: `UserStore`.

State changes of the store take two forms:

- Pure transitions `Step(result, games, nextId)` (`DataManager.Upsert`, `DataManager.Register`, `DataManager.Delete`, `Translator.Translate`, `GameReader.PersistTurns`). The lemmas are proved about these.
- The class methods (`DataManager.GameStore`, `Translator.DtoTranslator`, `GameReader.GameReader`). Their `ensures` ties the new fields to the transition applied to the old fields. `WellNumbered` is the store invariant that every transition keeps: ids come from a counter, game ids are distinct, and move-set ids are distinct within a game.

Three behaviours of the code are worth calling out:

- `GAMESTATE_RETRY_COUNT` is 5, but the retry loop of `ExtractGamestateStrings` fetches a page at most four times: `attempts` starts at 1 and the loop runs only while it is below 5 (`Extractor.OnlyFourFetches`).
- `GetAllPagePaths` does not filter the history page's hrefs by the year/season pattern. Every non-empty href is parsed, and one without the pattern makes the whole sort fail (`Extractor.SortedTurns`).
- `Satisfied` has no column in the schema and is not defined in the code modelled here. It is an arbitrary predicate of a move-set (`OrderSetOps.satisfied`), not a stored field.

## Model

| member | source | states |
|---|---|---|
| Fnv.Fnv1a | src/BSBackupSystem/Common/FnvHashing.cs:34-48 | the loop returns the FNV-1a fold Fnv1aOf: for each byte in stream order, XOR it in, then multiply by 16777619 modulo 2^32; an empty stream gives the offset basis 2166136261 |
| Fnv.Fnv1 | src/BSBackupSystem/Common/FnvHashing.cs:18-32 | the loop returns the FNV-1 fold Fnv1Of, multiplying before the XOR; an empty stream gives 2166136261 |
| Fnv.Fnv1aSnoc | src/BSBackupSystem/Common/FnvHashing.cs:38-45 | FNV-1a of s + [b] is ((FNV-1a(s) XOR b) * 16777619) mod 2^32 |
| Fnv.Fnv1Snoc | src/BSBackupSystem/Common/FnvHashing.cs:22-29 | FNV-1 of s + [b] is ((FNV-1(s) * 16777619) mod 2^32) XOR b |
| Fnv.Fnv1aAppend | src/BSBackupSystem/Common/FnvHashing.cs:38-45 | hashing can be resumed: FNV-1a of s + t folds t starting from the hash of s |
| Fnv.Fnv1aTestVector | src/BSBackupSystem/Common/FnvHashing.cs:10-16 | the standard vector of draft-eastlake-fnv: FNV-1a of the byte 0x61 is 0xE40C292C |
| Fnv.Fnv1TestVector | src/BSBackupSystem/Common/FnvHashing.cs:15-32 | the standard vector: FNV-1 of the byte 0x61 is 0x050C5D7E |
| Text.Trim | src/BSBackupSystem/Common/MiscExtensions.cs:9 | `Trim()` gives a slice of the input with only white space cut off at either end; the result has no white space at either end, and is empty iff the input is all white space |
| Text.TrimmedIsFixpoint | src/BSBackupSystem/Common/MiscExtensions.cs:9 | a string with no white space at either end is its own trim |
| Text.ToNullIfEmpty | src/BSBackupSystem/Common/MiscExtensions.cs:7 | null iff the length is 0, otherwise the string unchanged |
| Text.ToNullIfEmptyOrWhitespace | src/BSBackupSystem/Common/MiscExtensions.cs:9 | null iff the string is empty or all white space; otherwise the trimmed string, with no white space at either end |
| Text.ToNullIfEmptyOrWhitespaceIdempotent | src/BSBackupSystem/Common/MiscExtensions.cs:9 | applying it to its own non-null result gives the same result |
| Text.NormalisedIsKept | src/BSBackupSystem/Common/MiscExtensions.cs:9 | a non-empty string without white space at its ends is returned as it is |
| Text.Split | src/BSBackupSystem/Data/AppUserStore.cs:837 | `Split(';')` gives at least one piece, no piece holds the separator, and joining the pieces gives the input back |
| Text.CountChar | src/BSBackupSystem/Data/AppUserStore.cs:817 | the count is 0 iff the character does not occur, and at most the length |
| Text.CountSeparatorsInJoin | src/BSBackupSystem/Data/AppUserStore.cs:817-824 | joining n separator-free pieces puts exactly n - 1 separators in the result |
| Text.SplitJoin | src/BSBackupSystem/Data/AppUserStore.cs:824-837 | splitting the join of separator-free pieces gives the pieces back |
| Text.IndexOf | src/BSBackupSystem/Services/GameReader.BlobExtractor.cs:97 | null iff the character is absent; otherwise a position that holds it, with none before it |
| Text.LastIndexOf | src/BSBackupSystem/Services/GameReader.BlobExtractor.cs:97 | null iff the character is absent; otherwise a position that holds it, with none after it |
| Diplo.UnitDescription | src/BSBackupSystem/Model/Diplo/UnitOrder.cs:14 | "{UnitType} {Unit}", followed by " {UnitCoast}" only when the coast is not null |
| Diplo.ResultString | src/BSBackupSystem/Model/Diplo/UnitOrder.cs:15 | empty iff Result is "SUCCEEDS"; otherwise " -- {Result}, {ResultReason}" |
| Diplo.OrderString | src/BSBackupSystem/Model/Diplo/UnitOrder.cs:21-66 | Build renders "Builds {desc}" and Disband renders "Disbands {desc}"; every variant that does not put the verb first starts with the unit description |
| Diplo.ToString | src/BSBackupSystem/Model/Diplo/UnitOrder.cs:18 | the order text is a prefix of the result, and the whole result iff the order succeeded |
| Diplo.RenderingIgnoresPlayer | src/BSBackupSystem/Model/Diplo/UnitOrder.cs:14-18 | two orders that differ only in player render the same |
| Diplo.FailedOrderShowsReason | src/BSBackupSystem/Model/Diplo/UnitOrder.cs:15-18 | a failed order renders as its order text, then " -- {Result}, {ResultReason}" |
| Urls.IdTail | src/BSBackupSystem/Services/DiploDataManager.cs:11 | `\d{10,}/?` matches iff at least ten digits follow, and the match ends at least ten characters on |
| Urls.FirstAlternative | src/BSBackupSystem/Services/DiploDataManager.cs:11 | the alternatives "sandbox" and "game" are tried in order: no match iff none matches, and otherwise the match of one of them |
| Urls.MatchGameUrl | src/BSBackupSystem/Services/DiploDataManager.cs:11 | the anchored pattern matches iff some place for the end of `.*` lets the rest match; a match starts with "http" and lies inside the URL |
| Urls.MatchGameUrlEndsWithId | src/BSBackupSystem/Services/DiploDataManager.cs:11 | a match ends with '/', ten or more digits, and the optional '/' |
| Urls.FindIdFrom | src/BSBackupSystem/Services/DiploDataManager.cs:14 | the leftmost '/' that starts `/(\d{10,})/`, or null iff there is none |
| Urls.ForeignIdOf | src/BSBackupSystem/Services/DiploDataManager.cs:14 | null iff the foreign-id pattern occurs nowhere; otherwise the captured digit run, of ten or more digits |
| Urls.WithSlash | src/BSBackupSystem/Services/DiploDataManager.cs:124-128 | a '/' is added only when the match does not end with one; the result ends with '/' |
| Urls.ExtractKeyValues | src/BSBackupSystem/Services/DiploDataManager.cs:111-137 | a null or empty URL is refused; otherwise it fails as unrecognised iff the pattern does not match; on success the sanitised URL is the match ending in '/' and the id is the foreign-id match in it |
| Urls.SanitizedUrlHasForeignId | src/BSBackupSystem/Services/DiploDataManager.cs:124-134 | every matched URL yields a foreign id, so the "Couldn't get ID" failure cannot happen |
| Urls.ReadIffMatched | src/BSBackupSystem/Services/DiploDataManager.cs:111-137 | a non-empty URL is read iff the game-URL pattern matches it |
| Urls.IdTailHasForeignId | src/BSBackupSystem/Services/DiploDataManager.cs:11-14 | the digits that end a match, with the slash added, contain a foreign-id match |
| Urls.SandboxOnlyRejectsOtherUrls | src/BSBackupSystem/Services/DiploData.cs:20 | with only "sandbox" in the pattern, a URL without ".com/sandbox/" never matches |
| UrlExample.WorkedExample | src/BSBackupSystem/Services/DiploDataManager.cs:118-136 | "https://foo.example.com/game/mygame/1234567890/spring/1901" gives its first 47 characters and the foreign id "1234567890" |
| UrlExample.SanitizedText | src/BSBackupSystem/Services/DiploDataManager.cs:124 | those 47 characters are "https://foo.example.com/game/mygame/1234567890/" |
| YearSeasons.Match | src/BSBackupSystem/Services/GameReader.cs:46-58 | `(\d+)/(\w+)$` gives no match iff none exists; otherwise the leftmost one |
| YearSeasons.MatchIsAtLastSlash | src/BSBackupSystem/Services/GameReader.cs:46 | every match uses the last '/', ends after the word run that follows it (the end, or before a final line feed), and starts inside the digit run before it |
| YearSeasons.ParseInt | src/BSBackupSystem/Services/GameReader.cs:61 | `int.Parse` succeeds iff the text is a non-empty digit string whose value is at most int.MaxValue, and then gives that decimal value (`DigitsValue`); empty text or a non-digit is a format error, and a digit string above int.MaxValue an overflow error |
| YearSeasons.ParseDecimal | src/BSBackupSystem/Services/GameReader.cs:61 | parsing the decimal rendering of any int year gives the year |
| YearSeasons.SeasonIndexOf | src/BSBackupSystem/Services/GameReader.cs:49-54 | found iff the name is spring, fall or winter, with an index from 1 to 3; any other name is a lookup failure |
| YearSeasons.SeasonOrder | src/BSBackupSystem/Services/GameReader.cs:49-54 | spring < fall < winter |
| YearSeasons.YearText | src/BSBackupSystem/Services/GameReader.cs:61 | group 1: "" without a match, else the non-empty digits before the '/' |
| YearSeasons.Season | src/BSBackupSystem/Services/GameReader.cs:62 | group 2: "" without a match, else the non-empty word characters after the '/' |
| YearSeasons.Path | src/BSBackupSystem/Services/GameReader.cs:64 | group 0: the digits, '/', and the season |
| YearSeasons.Year | src/BSBackupSystem/Services/GameReader.cs:61 | a path without the suffix fails to parse; otherwise it succeeds iff group 1's value is at most int.MaxValue, and then gives that value, the number the sort orders by; a larger value is an overflow error |
| YearSeasons.SeasonIndex | src/BSBackupSystem/Services/GameReader.cs:63 | a path without the suffix fails the lookup |
| YearSeasons.ReadsWrittenPath | src/BSBackupSystem/Services/GameReader.cs:56-65 | "{year}/{season}" reads back as that year, that season and that whole path |
| YearSeasons.ReadsHref | src/BSBackupSystem/Services/GameReader.cs:56-64 | an href ending in a digit run, '/' and a word run, with no digit just before the run, has that run as group 1, with or without leading zeros: Year is `int.Parse` of it, and its value when that fits an int; the word run is the season and the run from its first digit is the path |
| YearSeasons.MatchFromRuns | src/BSBackupSystem/Services/GameReader.cs:46 | such an href matches `(\d+)/(\w+)$` at the start of the digit run, the final '/' and the end |
| Extractor.NonEmptyHrefs | src/BSBackupSystem/Services/GameReader.BlobExtractor.cs:60-61 | only non-empty hrefs are kept, with none dropped when every anchor has one; a URL is kept iff it is non-empty and some anchor has it as href |
| Extractor.HrefPositions | src/BSBackupSystem/Services/GameReader.BlobExtractor.cs:60-61 | the positions of the non-null, non-empty hrefs: ascending, each such href, and every one of them |
| Extractor.NonEmptyHrefsInOrder | src/BSBackupSystem/Services/GameReader.BlobExtractor.cs:60-61 | the k-th kept URL is the href at the k-th non-empty position, so the filter keeps anchor order and drops nothing else |
| Extractor.SortTurns | src/BSBackupSystem/Services/GameReader.BlobExtractor.cs:63-64 | sorted by year, then season index, and a permutation of the input |
| Extractor.SortStable | src/BSBackupSystem/Services/GameReader.BlobExtractor.cs:63-64 | turns with equal keys keep their input order |
| Extractor.Years | src/BSBackupSystem/Services/GameReader.BlobExtractor.cs:62-63 | succeeds iff every path has a year, and then gives each path's year in order |
| Extractor.SeasonIndices | src/BSBackupSystem/Services/GameReader.BlobExtractor.cs:62-64 | succeeds iff every path has a season index, and then gives each one in order |
| Extractor.SortedTurns | src/BSBackupSystem/Services/GameReader.BlobExtractor.cs:58-64 | a key that fails to parse fails the whole list; otherwise one sorted turn per non-empty href |
| Extractor.GetAllPagePaths | src/BSBackupSystem/Services/GameReader.BlobExtractor.cs:53-68 | succeeds iff the sort does, and then gives the `Path` of each sorted turn |
| Extractor.SortedTurnsArePermutation | src/BSBackupSystem/Services/GameReader.BlobExtractor.cs:62-65 | the sorted turns rearrange the keyed hrefs, and each key's hrefs keep their order |
| Extractor.ScriptLines | src/BSBackupSystem/Services/GameReader.BlobExtractor.cs:78-81 | the lines hold no '\n', and there are none when no script contains "var orders"; a line is present iff it is a '\n'-piece of some script containing "var orders" |
| Extractor.ScriptLinesAppend | src/BSBackupSystem/Services/GameReader.BlobExtractor.cs:78-81 | the lines of a concatenation of script lists are the first list's lines, then the second's: script order is kept |
| Extractor.ScriptLinesOne | src/BSBackupSystem/Services/GameReader.BlobExtractor.cs:78-81 | one script contributes all its '\n'-pieces, in order, if it contains "var orders", and nothing otherwise |
| Extractor.SingleLine | src/BSBackupSystem/Services/GameReader.BlobExtractor.cs:83-88 | null iff no line holds the marker; an error iff two lines do; otherwise the one such line, trimmed |
| Extractor.TurnState | src/BSBackupSystem/Services/GameReader.BlobExtractor.cs:96-97 | fails iff the line has fewer than two '"'; otherwise the text strictly between the first and the last '"' |
| Extractor.Attempt | src/BSBackupSystem/Services/GameReader.BlobExtractor.cs:77-99 | a page missing one of the three lines is incomplete; otherwise, over the page's script lines, the outcome `AttemptOutcome` describes |
| Extractor.FromLines | src/BSBackupSystem/Services/GameReader.BlobExtractor.cs:83-99 | the first lookup that throws (stage, units, orders) is the error; all looked up with one missing is an incomplete page; all found gives the blob for the path with the text between the stage line's first and last quote and the unit and order lines as found, or the range error |
| Extractor.FromAttempt | src/BSBackupSystem/Services/GameReader.BlobExtractor.cs:75-102 | from attempt 5 on, null; a blob or an error is what some attempt from the current one up to 4 found. FromAttemptStep, NullIffAllIncomplete and BlobFromFirstComplete state which attempt |
| Extractor.FromAttemptReadsBelowRetryCount | src/BSBackupSystem/Services/GameReader.BlobExtractor.cs:75-102 | only attempts below 5 affect the outcome |
| Extractor.OnlyFourFetches | src/BSBackupSystem/Services/GameReader.BlobExtractor.cs:72-102 | only what is served on attempts 1 to 4 affects the outcome |
| Extractor.NullIffAllIncomplete | src/BSBackupSystem/Services/GameReader.BlobExtractor.cs:90-104 | the result is null iff every remaining attempt up to 4 finds an incomplete page |
| Extractor.BlobFromFirstComplete | src/BSBackupSystem/Services/GameReader.BlobExtractor.cs:90-104 | a blob is the one built from the first complete attempt, and all earlier attempts were incomplete |
| Extractor.RetryLoop | src/BSBackupSystem/Services/GameReader.BlobExtractor.cs:72-104 | the do-while loop, run from attempt 1, returns what the retry recursion gives: the first complete attempt below 5, or null |
| Extractor.BlobExtractor.constructor | src/BSBackupSystem/Services/GameReader.BlobExtractor.cs:39 | GameUrl starts empty |
| Extractor.BlobExtractor.GetBlobs | src/BSBackupSystem/Services/GameReader.BlobExtractor.cs:14-25 | a blank URL is rejected and GameUrl is not set; otherwise GameUrl is the URL and the history page's anchors give the paths |
| Extractor.BlobExtractor.ExtractGamestateStrings | src/BSBackupSystem/Services/GameReader.BlobExtractor.cs:70-105 | the retry loop's result is the first complete attempt from attempt 1 on, or null |
| Decoder.Payload | src/BSBackupSystem/Services/GameReader.BlobDeserializer.cs:69-74 | fails iff the line has no '{'; otherwise the slice from the first '{' up to, not including, the last character |
| Decoder.ReadUnitDto | src/BSBackupSystem/Services/GameReader.BlobDeserializer.cs:103-130 | a string gives that Type and no coast; an object gives its "type" and "coast" and fails without both; any other token throws |
| Decoder.ConvertUnitEntries | src/BSBackupSystem/Services/GameReader.BlobDeserializer.cs:70-71 | succeeds iff every descriptor converts, and then keeps each label with its converted descriptor, in order |
| Decoder.ConvertUnits | src/BSBackupSystem/Services/GameReader.BlobDeserializer.cs:70-71 | fails iff some non-null country's unit map does not convert; every country is kept, in order, stays null iff it was null, and is otherwise the converted map |
| Decoder.AddAll | src/BSBackupSystem/Services/GameReader.BlobDeserializer.cs:72 | `ToDictionary` succeeds iff no label repeats or is already present; the map then holds every entry under its label |
| Decoder.FlattenUnits | src/BSBackupSystem/Services/GameReader.BlobDeserializer.cs:72 | a null country makes the flattening throw |
| Decoder.AddAllAppend | src/BSBackupSystem/Services/GameReader.BlobDeserializer.cs:72 | adding a concatenation is adding its first part, then its second |
| Decoder.FlattenIsToDictionary | src/BSBackupSystem/Services/GameReader.BlobDeserializer.cs:70-72 | with no null country, the flattened map is one `ToDictionary` over all units in order, so a label under two countries is an error |
| Decoder.RemapRetreat | src/BSBackupSystem/Services/GameReader.BlobDeserializer.cs:158-165 | Move becomes RetreatMove, Disband becomes RetreatDisband, and any other type is unchanged |
| Decoder.ExpandEntries | src/BSBackupSystem/Services/GameReader.BlobDeserializer.cs:148-171 | fails iff some entry is null; otherwise the length is the number of entries plus the number with a retreat |
| Decoder.ReadOrderList | src/BSBackupSystem/Services/GameReader.BlobDeserializer.cs:143-171 | the loop builds exactly ExpandEntries of the dictionary |
| Decoder.ExpandFailurePersists | src/BSBackupSystem/Services/GameReader.BlobDeserializer.cs:152-155 | a null entry anywhere fails the whole list |
| Decoder.ExpandPrefix | src/BSBackupSystem/Services/GameReader.BlobDeserializer.cs:152-169 | the list built from a prefix of the entries is a prefix of the whole list |
| Decoder.ExpandPlacesRetreatAfterOrder | src/BSBackupSystem/Services/GameReader.BlobDeserializer.cs:154-167 | each order stands right after what its predecessors produced, as the order with its key as Unit; with a retreat, the retreat follows at the next position, move type remapped and keyed the same, and the order's own Retreat is that same record |
| Decoder.ExpandUnitsAreKeys | src/BSBackupSystem/Services/GameReader.BlobDeserializer.cs:154-166 | every record's Unit is the key of an entry |
| Decoder.ConvertOrders | src/BSBackupSystem/Services/GameReader.BlobDeserializer.cs:76-81 | fails iff some non-null country's order list does not expand; each country is kept in order, null iff it was, and is otherwise converted by the list converter |
| Decoder.BackfillOrder | src/BSBackupSystem/Services/GameReader.BlobDeserializer.cs:86-96 | Player becomes the country; throws iff a non-Build order's unit is missing from a non-null map; UnitType and UnitCoast are filled only where null, and nothing else changes |
| Decoder.BackfillCountry | src/BSBackupSystem/Services/GameReader.BlobDeserializer.cs:84-97 | succeeds iff every order back-fills, and then back-fills each one in order |
| Decoder.BackfillAll | src/BSBackupSystem/Services/GameReader.BlobDeserializer.cs:84-97 | a null country throws; otherwise one order per order of every country, each with its country as Player |
| Decoder.BackfillAllSucceeds | src/BSBackupSystem/Services/GameReader.BlobDeserializer.cs:84-97 | the back-fill succeeds iff every country has an order list and every one of its orders back-fills |
| Decoder.BackfillAllAt | src/BSBackupSystem/Services/GameReader.BlobDeserializer.cs:84-97 | the k-th order of country i, back-filled with that country as Player, stands at position OrderCount(countries[..i]) + k |
| Decoder.BackfillAllAppend | src/BSBackupSystem/Services/GameReader.BlobDeserializer.cs:84-85 | flattening a concatenation of countries flattens each part and concatenates the results |
| Decoder.GetOrderDtos | src/BSBackupSystem/Services/GameReader.BlobDeserializer.cs:66-98 | a unit line without '{' or with malformed JSON is rejected |
| Decoder.GetOrderDtosNamesEveryOrder | src/BSBackupSystem/Services/GameReader.BlobDeserializer.cs:84-97 | every order handed on names its unit and its player |
| Decoder.BackfillAllKeepsUnits | src/BSBackupSystem/Services/GameReader.BlobDeserializer.cs:86-96 | the back-fill never clears a unit name |
| Translator.NormaliseCoast | src/BSBackupSystem/Services/GameReader.DtoTranslator.cs:69 | null iff the coast is null or blank; otherwise the trimmed coast |
| Translator.BuildModelOrder | src/BSBackupSystem/Services/GameReader.DtoTranslator.cs:56-103 | Unknown fails with ApplicationException and an unnamed value fails with NotSupportedException; each other type gives its variant with the fields of the construction, and null common fields become "" (the unit coast becomes null) |
| Translator.TranslationKeepsMoveType | src/BSBackupSystem/Services/GameReader.DtoTranslator.cs:60-93 | a translated order's variant maps back to the record's move type |
| Translator.TranslationRoundTrip | src/BSBackupSystem/Services/GameReader.DtoTranslator.cs:56-103 | every model order with normalised coasts is translated from its own record |
| Translator.NormalCoastIsKept | src/BSBackupSystem/Services/GameReader.DtoTranslator.cs:98 | normalising a normalised coast changes nothing |
| Translator.BuildOrders | src/BSBackupSystem/Services/GameReader.DtoTranslator.cs:47 | succeeds iff every record translates, and then gives one model order per record, in order; otherwise it fails with the error of a record |
| Translator.BuildMoveSet | src/BSBackupSystem/Services/GameReader.DtoTranslator.cs:34-52 | a bad path fails with the Year or SeasonIndex error; a success has the path's year, season and index, the blob's state, one order per record in order, LastSeen now, and PreRetreatHash and FullHash the set-hash of the orders without retreats and of all orders |
| Translator.Translate | src/BSBackupSystem/Services/GameReader.DtoTranslator.cs:19-32 | a blank URL is rejected without change, and so is every failure; a success needs a non-blank URL and a built set; the store keeps its length, every game keeps all but its move-sets, and the counter advances by at most one. TranslateOutcomes ties the rest to the upsert |
| Translator.TranslateOutcomes | src/BSBackupSystem/Services/GameReader.DtoTranslator.cs:19-32 | a blank URL or a set that cannot be built is refused without change; otherwise the result and the store are exactly the upsert's |
| Translator.TranslateKeepsNumbering | src/BSBackupSystem/Services/GameReader.DtoTranslator.cs:19-32 | a translated turn keeps the store well numbered |
| Translator.DtoTranslator.constructor | src/BSBackupSystem/Services/GameReader.DtoTranslator.cs:9 | the translator persists through the given data manager |
| Translator.DtoTranslator.TranslateAndPersistTurn | src/BSBackupSystem/Services/GameReader.DtoTranslator.cs:19-32 | the data manager's new games and counter and the returned id are those of Translate on the old store |
| DataManager.First | src/BSBackupSystem/Services/DiploDataManager.cs:74 | `First`/`FirstOrDefault`: null iff no element satisfies the test; otherwise the first that does |
| DataManager.GameIndexFor | src/BSBackupSystem/Services/DiploDataManager.cs:41-47 | fails iff the URL's key values fail; null iff no game has the foreign id; otherwise a game with it |
| DataManager.KeyValues | src/BSBackupSystem/Services/DiploDataManager.cs:111-137 | with the `(?:sandbox\|game)` pattern: an empty URL is refused as null; a non-empty one is read iff the pattern matches, so "Couldn't get ID" never happens; the sanitised URL is the match with a '/' ensured at its end, and the foreign id is the one the foreign-id pattern finds in it |
| DataManager.GetGameByUrl | src/BSBackupSystem/Services/DiploDataManager.cs:41-47 | fails iff the URL cannot be read; a game found is stored and has the URL's foreign id; none is found iff no stored game has that foreign id |
| DataManager.GetGameById | src/BSBackupSystem/Services/DiploDataManager.cs:49-53 | null iff no game has the id; otherwise a stored game with it |
| DataManager.GetMoves | src/BSBackupSystem/Services/DiploDataManager.cs:55-59 | null iff the game or its move-set is missing; otherwise that game's move-set with the id |
| DataManager.FoundById | src/BSBackupSystem/Services/DiploDataManager.cs:49-53 | in a well-numbered store every game is found by its id |
| DataManager.FoundMoves | src/BSBackupSystem/Services/DiploDataManager.cs:55-59 | in a well-numbered store every move-set is found by its game's and its own id |
| DataManager.Register | src/BSBackupSystem/Services/DiploDataManager.cs:17-35 | fails iff the URL cannot be read, with that error; otherwise games are only added, at most one, last, and the counter advances by the number added; (true, null) iff a game is added, and it is then the new game under the old counter with the sanitised URL, foreign id, time, owner and no sets, whose foreign id no earlier game has; any other success is (false, "Game already tracked."). RegisterBadUrl, RegisterRefusesTrackedGame and RegisterAddsOneGame state each branch exactly |
| DataManager.RegisterBadUrl | src/BSBackupSystem/Services/DiploDataManager.cs:17-19 | a URL that cannot be read is refused and nothing is stored |
| DataManager.RegisterRefusesTrackedGame | src/BSBackupSystem/Services/DiploDataManager.cs:21-24 | a stored foreign id gives (false, "Game already tracked.") and nothing is added |
| DataManager.RegisterAddsOneGame | src/BSBackupSystem/Services/DiploDataManager.cs:26-34 | otherwise exactly one game is added, with the sanitised URL, the foreign id, the time and the owner, and (true, null) is returned; the URL then finds it and a second registration is refused |
| DataManager.RegisterKeepsNumbering | src/BSBackupSystem/Services/DiploDataManager.cs:26-33 | registration keeps the store well numbered |
| DataManager.ActiveIndex | src/BSBackupSystem/Services/DiploDataManager.cs:77-78 | null iff no set has the turn; otherwise the same-turn set that the stable sort by FirstSeen puts last |
| DataManager.WithPrevious | src/BSBackupSystem/Services/DiploDataManager.cs:72-75 | no previous id leaves the set unchanged; a previous id not among the game's sets fails; otherwise it becomes the set's previous set |
| DataManager.Mergeable | src/BSBackupSystem/Services/DiploDataManager.cs:80-83 | a merge needs the same previous set and the same pre-retreat hash, and, once the active set is satisfied, the same full hash; a turn seen again with all three equal always merges, and before satisfaction the full hash is not looked at |
| DataManager.Updated | src/BSBackupSystem/Services/DiploDataManager.cs:150-166 | the active set keeps its orders as a prefix: unchanged when the order-set hashes agree, followed by exactly the new set's retreats when they differ; State and LastSeen come from the new set; everything else, both stored hashes included, stays |
| DataManager.Inserted | src/BSBackupSystem/Services/DiploDataManager.cs:139-148 | the new set under the given id, with FirstSeen set to its LastSeen and nothing else changed |
| DataManager.MergeSets | src/BSBackupSystem/Services/DiploDataManager.cs:77-90 | the counter advances by at most one; when it does, the new set was appended under the old counter, which is returned; otherwise a same-turn set that passes the merge test was updated in place and its id is returned; a turn with no stored set always inserts. MergeSetsHolds and MergeSetsNumbered state what the returned id finds and the numbering kept |
| DataManager.Upsert | src/BSBackupSystem/Services/DiploDataManager.cs:61-91 | a failure changes nothing; an unreadable URL fails with its key error; a success needs the game to be found; the store keeps its length, every game keeps all but its move-sets, and the counter advances by at most one. UpsertErrors, UpsertUpdatePath, UpsertInsertPath, UpsertKeepsNumbering and UpsertResultIsRetrievable state the paths |
| DataManager.UpsertErrors | src/BSBackupSystem/Services/DiploDataManager.cs:61-75 | the upsert fails without change exactly when the URL, the game or the previous set is missing |
| DataManager.UpsertUpdatePath | src/BSBackupSystem/Services/DiploDataManager.cs:80-86 | when the merge test holds, the number of sets stays the same; the active set keeps its id, turn, previous set, FirstSeen and hashes and its old orders as a prefix; it gains the new retreats iff the order-set hashes differ; it takes the new state and LastSeen; its id is returned and nothing else changes |
| DataManager.UpsertInsertPath | src/BSBackupSystem/Services/DiploDataManager.cs:80-90 | with no active set, or one failing the merge test, the game gains exactly one set, last: the new set with FirstSeen := LastSeen under a fresh id; that id is returned and nothing else changes |
| DataManager.MergeSetsHolds | src/BSBackupSystem/Services/DiploDataManager.cs:77-90 | the set whose id is returned sits in the game's new sets with the new set's turn, state and LastSeen |
| DataManager.UpsertKeepsNumbering | src/BSBackupSystem/Services/DiploDataManager.cs:61-91 | the upsert keeps the store well numbered |
| DataManager.MergeSetsNumbered | src/BSBackupSystem/Services/DiploDataManager.cs:80-90 | updating the active set or adding a set under the next id keeps the game's set ids distinct and below the counter |
| DataManager.UpsertResultIsRetrievable | src/BSBackupSystem/Services/DiploDataManager.cs:61-91 | the id returned finds, in the new store, a set with the new state and LastSeen |
| DataManager.Delete | src/BSBackupSystem/Services/DiploDataManager.cs:93-109 | the counter never changes, and success is exactly the absence of a reason; a refusal changes nothing; "No such game" iff no game has the id; a success removes a game with that id owned by the user, the others keeping their order. DeleteOutcomes and RemoveKeepsNumbering state the rest |
| DataManager.DeleteOutcomes | src/BSBackupSystem/Services/DiploDataManager.cs:93-109 | a missing game gives (false, "No such game") and a non-owner gives (false, "User is not authorized to remove this game."), both without change; otherwise exactly that game is removed, the others keep their order, and (true, null) is returned |
| DataManager.RemoveKeepsNumbering | src/BSBackupSystem/Services/DiploDataManager.cs:106-108 | removing a game keeps the others in order and well numbered, and leaves no game with its id |
| DataManager.GameStore.constructor | src/BSBackupSystem/Services/DiploDataManager.cs:9 | an empty, well-numbered store |
| DataManager.GameStore.RegisterGame | src/BSBackupSystem/Services/DiploDataManager.cs:17-35 | the new state is Register on the old one, and the store stays well numbered |
| DataManager.GameStore.RegisterWithKey | src/BSBackupSystem/Services/DiploDataManager.cs:21-34 | the same, once the key values are known |
| DataManager.GameStore.UpsertMoveSet | src/BSBackupSystem/Services/DiploDataManager.cs:61-91 | the new state and result are Upsert on the old state, and the store stays well numbered |
| DataManager.GameStore.UpsertWithKey | src/BSBackupSystem/Services/DiploDataManager.cs:66-90 | the same, once the key values are known |
| DataManager.GameStore.MergeIntoGame | src/BSBackupSystem/Services/DiploDataManager.cs:80-90 | the update or insert step leaves the game's sets, the counter and the result as the upsert's game part gives them |
| DataManager.GameStore.InsertNewMoveSet | src/BSBackupSystem/Services/DiploDataManager.cs:139-148 | the set is appended to the game with FirstSeen := LastSeen under the next id, which is returned |
| DataManager.GameStore.UpdateMoveSet | src/BSBackupSystem/Services/DiploDataManager.cs:150-166 | the active set takes the new retreats when the hashes differ, then the new state and LastSeen; its id is returned |
| DataManager.GameStore.DeleteGame | src/BSBackupSystem/Services/DiploDataManager.cs:93-109 | the new state is Delete on the old one |
| LegacyData.RejectsNonSandboxUrls | src/BSBackupSystem/Services/DiploData.cs:20-56 | the older pattern refuses every URL without ".com/sandbox/" as unrecognised |
| LegacyData.KeyValues | src/BSBackupSystem/Services/DiploData.cs:20-71 | with the "sandbox"-only pattern: an empty URL is refused as null; a non-empty one is read iff the pattern matches; the sanitised URL is the match with a '/' ensured, and the foreign id the one found in it |
| LegacyData.Register | src/BSBackupSystem/Services/DiploData.cs:26-43 | fails iff the URL cannot be read, with that error; otherwise at most one game is added, last, the counter advancing by the number added; true iff a game is added, which is then the new game under the old counter with the URL, foreign id and time but no owner, and whose foreign id no earlier game has |
| LegacyData.RegisterOutcomes | src/BSBackupSystem/Services/DiploData.cs:26-43 | a bad URL is refused and a stored foreign id gives false, both without change; otherwise exactly one game is added, with no owner, and true is returned; a second registration gives false |
| LegacyData.LegacyGameStore.constructor | src/BSBackupSystem/Services/DiploData.cs:18 | an empty store |
| LegacyData.LegacyGameStore.RegisterGame | src/BSBackupSystem/Services/DiploData.cs:26-43 | the new state and result are Register on the old state |
| LegacyData.LegacyGameStore.RegisterWithKey | src/BSBackupSystem/Services/DiploData.cs:30-42 | the same, once the key values are known |
| GameReader.PersistTurns | src/BSBackupSystem/Services/GameReader.cs:28-39 | an extraction error that escapes is one that the blob lookup of some path raised, and a decode error one that decoding some path's blob raised. MissingBlobIsSkipped, NextTurnGetsPrevious, NoBlobsChangeNothing and PersistKeepsNumbering state the loop |
| GameReader.MissingBlobIsSkipped | src/BSBackupSystem/Services/GameReader.cs:29-36 | a path without a blob, inserted anywhere, changes neither the store nor the result |
| GameReader.NextTurnGetsPrevious | src/BSBackupSystem/Services/GameReader.cs:28-38 | after any number of missing blobs, the next turn is persisted with the earlier previous-turn id, and later turns continue from the id it returned |
| GameReader.NoBlobsChangeNothing | src/BSBackupSystem/Services/GameReader.cs:28-36 | with no blobs the store is unchanged and the previous-turn id stays as it was |
| GameReader.PersistKeepsNumbering | src/BSBackupSystem/Services/GameReader.cs:29-39 | the whole loop keeps the store well numbered |
| GameReader.GameReader.constructor | src/BSBackupSystem/Services/GameReader.cs:17-22 | the reader's extractor reads the given network, and its translator persists through the given data manager |
| GameReader.GameReader.ReadAndPersistGame | src/BSBackupSystem/Services/GameReader.cs:24-40 | a blank URL or an unreadable history page changes nothing; otherwise the store becomes PersistTurns over the sorted paths, starting with no previous turn, and the error is the loop's |
| GameReader.GameReader.PersistPaths | src/BSBackupSystem/Services/GameReader.cs:28-39 | the `foreach` loop leaves the store and the result as PersistTurns describes |
| UserStore.TokenValue | src/BSBackupSystem/Data/AppUserStore.cs:788-796 | a missing row reads as null |
| UserStore.CountCodes | src/BSBackupSystem/Data/AppUserStore.cs:808-820 | 0 iff the token is null or empty; otherwise the number of ';' plus one |
| UserStore.Without | src/BSBackupSystem/Data/AppUserStore.cs:840 | keeps exactly the entries other than the code, one fewer for each equal entry |
| UserStore.CountAfterReplace | src/BSBackupSystem/Data/AppUserStore.cs:808-826 | storing ';'-free codes and counting them gives their number (0 for no codes or the single empty code) |
| UserStore.Redeemed | src/BSBackupSystem/Data/AppUserStore.cs:836-840 | null iff the code is not a ';'-separated entry; otherwise the entries without it, in order |
| UserStore.RedeemedCodeIsGone | src/BSBackupSystem/Data/AppUserStore.cs:836-842 | a redeemed code cannot be redeemed again |
| UserStore.CountAfterRedeem | src/BSBackupSystem/Data/AppUserStore.cs:808-842 | redeeming leaves fewer codes, and counting then gives their number |
| UserStore.TokenStore.SetToken | src/BSBackupSystem/Data/AppUserStore.cs:757-773 | the row (user, provider, name) gets the value, added or overwritten; reading it gives that value |
| UserStore.TokenStore.RemoveToken | src/BSBackupSystem/Data/AppUserStore.cs:775-786 | the row goes and reads as null; a missing row changes nothing |
| UserStore.TokenStore.GetToken | src/BSBackupSystem/Data/AppUserStore.cs:788-796 | the row's value, null when there is none |
| UserStore.TokenStore.SetAuthenticatorKey | src/BSBackupSystem/Data/AppUserStore.cs:802-803 | the key is stored under "[AspNetUserStore]", "AuthenticatorKey" |
| UserStore.TokenStore.GetAuthenticatorKey | src/BSBackupSystem/Data/AppUserStore.cs:805-806 | the value stored under "[AspNetUserStore]", "AuthenticatorKey" |
| UserStore.TokenStore.CountCodesOf | src/BSBackupSystem/Data/AppUserStore.cs:808-820 | the count of the user's stored recovery codes |
| UserStore.TokenStore.ReplaceCodes | src/BSBackupSystem/Data/AppUserStore.cs:822-826 | the codes joined with ';' are stored under "[AspNetUserStore]", "RecoveryCodes" and nothing else changes |
| UserStore.TokenStore.RedeemCode | src/BSBackupSystem/Data/AppUserStore.cs:828-845 | an empty code is refused; otherwise true iff it is a stored entry, in which case the codes without it are stored; false changes nothing |
| UserStore.Increment | src/BSBackupSystem/Data/AppUserStore.cs:676 | `++` on an int adds one, except that int.MaxValue wraps to int.MinValue; congruent to x + 1 modulo 2^32 |
| UserStore.IncrementAccessFailedCount | src/BSBackupSystem/Data/AppUserStore.cs:671-678 | the counter goes up by one, with wrap-around, and the new value is returned |
| UserStore.ResetAccessFailedCount | src/BSBackupSystem/Data/AppUserStore.cs:680-687 | the counter becomes 0 |
| UserStore.GetAccessFailedCount | src/BSBackupSystem/Data/AppUserStore.cs:689-695 | the current counter |

## Left out

- Network and HTML: `HttpClient` fetching and AngleSharp traversal are left out. The history page is the list of its anchors' hrefs (`Network.historyAnchors`). A turn page on each attempt is the list of its script texts (`Network.pageScripts`).
- JSON tokenising: `System.Text.Json`, `JsonDocument` and the snake_case naming policy are payload parsers given as parameters (`parseUnits`, `parseOrders`). They yield the parsed country, label and descriptor structure, or a syntax error, or the literal `null`. Duplicate members inside one JSON object are not modelled.
- Regular expressions: the three patterns are hand-written recognisers for their own shapes, not a general engine. `\d` and `\w` are taken as ASCII. .NET's Unicode digit and letter classes are wider.
- `GetOrderSetHash`, `NoRetreats`, `OnlyRetreats`, per-order byte streams and `MoveSet.Satisfied` are not in the shown code. They are arbitrary functions in `Diplo.OrderSetOps`. No sub-list, order or permutation property is assumed of them.
- `GetFnv1`/`GetFnv1a` only call `Fnv1`/`Fnv1a`, so they have no members of their own. The byte stream is a parameter.
- Clock: `DateTime.UtcNow` and `DateTimeOffset.UtcNow` are parameters (`now`, and `clock(k)` for the k-th turn of the loop).
- Storage: `async`/`await`, EF change tracking and `SaveChangesAsync` are one atomic update of an in-memory store.
- Ids: EF's Guid generation is a counter (`nextId`), so fresh ids are exactly the ones never handed out.
- Ownership: a game's owner is compared by user id, not by entity reference.
- `ArgumentNullException` checks on the user or on non-nullable arguments, `ThrowIfDisposed` and cancellation tokens are not modelled. Dafny values cannot be null.
- Diplo.OrderString: RetreatMove and RetreatDisband have no rendering in UnitOrder.cs. RetreatMove renders like `RetreatOrder` ("Retreats To") and RetreatDisband like a disband.
- Diplo.OrderString: the contract states the verb-first forms and the unit-description prefix. The texts after the description are given only by the function's cases.
- GameReader.GameReader.ReadAndPersistGame: the previous-turn id passed to each turn is stated on `PersistTurns` (`NextTurnGetsPrevious`, `MissingBlobIsSkipped`), not traced through the method.
- Decoder.GetOrderDtos: the contract states only the early rejections. What it hands on is stated by `GetOrderDtosNamesEveryOrder`, by `BackfillAllSucceeds` and `BackfillAllAt` on `BackfillAll` (when it succeeds and what stands at each position), and by the lemmas on `ExpandEntries`.
- The rest of the identity store (users, roles, claims, logins, lockout, security stamps), the Razor pages, e-mail delivery, scheduling, the migrations and the service wiring are not part of this model.
